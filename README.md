# Fitness booking core, modelled in Dafny

This project models the core of a Django backend for booking fitness classes.

- **Sessions.** A class session (`ClassSchedule`) has a capacity, a counter of booked seats, a waitlist switch and a status. Saving a session re-derives that status.
- **Booking ledger.** Users book a session, which confirms a seat or queues them on the waitlist. They can update the notes of a booking and cancel it up to 24 hours before the start. Once they have attended, they review the session.
- **Helpers around the ledger:**
  - capacity arithmetic;
  - the booking-time and cancellation-window predicates;
  - the user manager, with full name and display name;
  - phone-number and registration-field validation;
  - the uniform response envelope;
  - the exception classes with their status codes;
  - the view decorators;
  - the request-level rules of the booking views;
  - the class-search view helpers: applied filters, calendar grouping, time-of-day and day-of-week filters, and the analytics period.

Times are integer seconds, and the clock `now` is passed in as a parameter. Dates and hours are read in UTC: a day is `t / 86400` and an hour is `(t % 86400) / 3600`.

The database is replaced by values. The session ledger is the class `Ledger.SessionLedger`. It holds the session record, a map from user to booking and a map from user to review. Its methods are the request paths. Each method is proved to keep the ledger invariant `Valid()`:

- waitlist positions are exactly 1, 2, …, n;
- each position is held by a distinct booking that carries the waitlist flag;
- every review comes from a completed booking.

One module per source file:

| module | file | source |
|---|---|---|
| `ClassModels` | class_models.dfy | classes/models.py |
| `ClassUtils` | class_utils.dfy | classes/utils.py |
| `BookingModels` | booking_models.dfy | bookings/models.py |
| `BookingUtils` | booking_utils.dfy | bookings/utils.py |
| `Ledger` | ledger.dfy | bookings/serializers.py with the lookups of bookings/views.py |
| `BookingViews` | booking_views.dfy | bookings/views.py |
| `ClassViews` | class_views.dfy | classes/views.py |
| `Users` | users.dfy | users/models.py |
| `UserUtils` | user_utils.dfy | users/utils.py |
| `Responses` | responses.dfy | core/utils.py |
| `Exceptions` | exceptions.dfy | core/exceptions.py |
| `Decorators` | decorators.dfy | core/decorators.py |

`Wrappers` (Option, Result), `Strings` and `Seqs` stand in for the Python built-ins the code uses:

- `str.strip`, `int()`, `str(n)`, `', '.join`, `lower() == 'true'` and `split('@')[0]`;
- list filtering and counting.

## Model

| member | source | states |
|---|---|---|
| ClassModels.CapacityStatus | classes/models.py:310-314 | A session at or over capacity becomes full whatever its status. A full session below capacity becomes active. Any other status is kept. |
| ClassModels.SaveFullOverridesAll | classes/models.py:311-312 | At or over capacity, saving yields full, even from cancelled or completed. |
| ClassModels.SaveBelowCapacity | classes/models.py:313-318 | Below capacity, a full session becomes active, or completed if it has already started. Cancelled and completed are never touched. |
| ClassModels.SavePastSessions | classes/models.py:317-318 | A started active session becomes completed. A started session at capacity stays full. |
| ClassModels.SaveIdempotent | classes/models.py:302-320 | Saving twice with the same clock gives the same record as saving once. |
| ClassModels.SaveEndTime | classes/models.py:307-308 | A missing end time becomes start + duration × 60 s. A supplied one is kept. Nothing but end time and status changes. |
| ClassModels.AvailableSlots | classes/models.py:323-336 | Free seats equal max(0, capacity − booked), and are 0 exactly when `is_full`. |
| ClassModels.UpcomingPastExclusive | classes/models.py:338-350 | No session is both upcoming and past. It is neither exactly when it starts at `now`. |
| ClassModels.TotalAvailableAppend | classes/models.py:193-201 | The total over the upcoming active sessions is additive over concatenation. |
| ClassModels.TotalAvailableNoneCounted | classes/models.py:193-199 | With no upcoming active session, the total is 0. |
| ClassModels.FindSchedule | classes/models.py:187 | Finds the first session with the id: no earlier session has it. Otherwise reports that none has it. |
| ClassModels.ClassAvailableSlots | classes/models.py:179-201 | With a non-zero id: the free seats of that session, or 0 when the id is unknown. Otherwise: the loop's sum of free seats over sessions starting at or after `now` with status active. |
| ClassUtils.ValidateClassCapacity | classes/utils.py:18 | True iff 1 ≤ capacity ≤ 1000, the range of the model validators. |
| ClassUtils.CalculateAvailableSlots | classes/utils.py:32 | The result is never negative. It is total − booked when booked ≤ total, and 0 exactly when booked ≥ total. |
| ClassUtils.AvailableSlotsMonotone | classes/utils.py:32 | Non-increasing in booked slots and non-decreasing in capacity. |
| BookingModels.StatusNameInjective | bookings/models.py:10-14 | The stored status names are pairwise different. |
| BookingModels.NewBooking | bookings/models.py:18-22 | A new booking is booked, not waitlisted, has no position and no cancellation time, and keeps its time and notes. |
| BookingModels.IsActive | bookings/models.py:43-48 | Active iff booked. A waitlisted booking is not active. |
| BookingModels.Cancel | bookings/models.py:50-59 | Status becomes cancelled with the time stamped. The waitlist flag and position are kept. A non-empty reason appends "\nCancellation reason: …" to the notes; otherwise the notes are unchanged. Notes only grow. |
| BookingUtils.ValidateBookingTime | bookings/utils.py:19 | True iff start ≤ t ≤ end, both ends inclusive. |
| BookingUtils.CanCancelBooking | bookings/utils.py:34-35 | True iff the current time is strictly before start − 24 h. |
| BookingUtils.CanCancelMonotone | bookings/utils.py:35 | Cancellable at some time implies cancellable at every earlier time. |
| Ledger.UpTo | bookings/serializers.py:138-142 | The set of positions 1..n. |
| Ledger.ReplaceKeepsWaitlist | bookings/models.py:54-59 | Replacing a booking with one carrying the same waitlist fields (as `cancel` and update do) keeps the waitlisted set, the positions and a well-formed waitlist. |
| Ledger.AddConfirmedKeepsWaitlist | bookings/serializers.py:156-164 | Adding a confirmed booking changes no part of the waitlist. |
| Ledger.AddWaitlistedExtends | bookings/serializers.py:138-142 | Adding a booking at position count + 1 adds the user to the waitlisted set, raises the count by one and adds exactly that position. |
| Ledger.AddWaitlistedKeepsWellFormed | bookings/serializers.py:138-142 | Positions stay exactly 1..n, distinct, and held exactly by waitlisted bookings. |
| Ledger.AddWaitlistedKeepsDense | bookings/serializers.py:138-142 | The positions stay 1..count. |
| Ledger.AddWaitlistedKeepsFlags | bookings/serializers.py:135-142 | Exactly the waitlisted bookings hold a position. |
| Ledger.AddKeepsDistinct | bookings/models.py:22 | No two bookings share a position. |
| Ledger.NextPositionIsFresh | bookings/serializers.py:138-142 | Every held position is within 1..count, so count + 1 is never reused. Cancelled waitlisted bookings are still counted. |
| Ledger.AddBookingKeepsValid | bookings/serializers.py:124-164 | A confirmed booking, or a waitlisted one at the next position, keeps the ledger invariant. |
| Ledger.ReplaceBookingKeepsValid | bookings/serializers.py:225-240 | A replacement with the same waitlist fields keeps the invariant, provided reviewed bookings stay completed. |
| Ledger.AddReviewKeepsValid | bookings/serializers.py:263-300 | A review by a user with a completed booking, for this session and its class, keeps the invariant. |
| Ledger.ValidateClassSchedule | bookings/serializers.py:105-122 | Passes iff the session is active, starts after now, and the user holds no booking of any status. Each failure carries its own message, checked in source order. |
| Ledger.ValidateCapacity | bookings/serializers.py:124-146 | Not full gives a seat. Full with the waitlist enabled gives position count + 1. Full without the waitlist is rejected. |
| Ledger.PlacedBooking | bookings/serializers.py:135-142 | A seat gives the default booking. A waitlisted placement gives a booking with status waitlisted, the flag set and that position. |
| Ledger.ValidateUpdate | bookings/serializers.py:176-189 | Passes iff the booking is neither cancelled nor completed, with the source's two messages. |
| Ledger.ValidateCancel | bookings/serializers.py:201-223 | Passes iff not cancelled, not completed and now ≤ start − 24 h. Each failure carries its own message. |
| Ledger.CancelDeadlineBoundary | bookings/serializers.py:218 | At exactly start − 24 h the serializer accepts while `can_cancel_booking` refuses. Everywhere else they agree. |
| Ledger.LookupMakesStatusChecksRedundant | bookings/views.py:171-177 | Bookings the update and cancel lookups find always pass the serializer's status checks. Only the deadline can refuse them. |
| Ledger.ValidateRating | bookings/models.py:68 | A missing rating defaults to 5. Ratings 1..5 are accepted and any other value is refused. |
| Ledger.ValidateReview | bookings/serializers.py:263-291 | Passes iff the user holds a completed booking and has not reviewed the session. The attendance check comes first. |
| Ledger.SessionLedger.constructor | classes/models.py:302-320 | A new session is saved once, with no bookings and no reviews. |
| Ledger.SessionLedger.Save | classes/models.py:302-320 | The record becomes `Saved(old, now)`. Bookings and reviews are unchanged and the invariant is kept. |
| Ledger.SessionLedger.WaitlistPosition | classes/models.py:377-388 | Some iff the user's booking carries the waitlist flag, and then the position lies in 1..count. |
| Ledger.SessionLedger.CreateBooking | bookings/serializers.py:105-166 | Refused exactly when a schedule check fails or the session is full without a waitlist. Otherwise the booking is confirmed with the counter +1, or waitlisted after every existing position with the counter unchanged. Confirmed iff `can_book` held. The stored status is never changed. Booked ≤ capacity is preserved. |
| Ledger.SessionLedger.UpdateBooking | bookings/views.py:167-177 | Not found unless the user's booking is neither cancelled nor completed. Only its notes change. |
| Ledger.SessionLedger.CancelBooking | bookings/serializers.py:201-240 | Not found, or too late past start − 24 h. Otherwise `cancel` is applied with the reason. The counter becomes max(0, booked − 1) for a seat and is unchanged for the waitlist. Other bookings are unchanged, there is no promotion and the status is untouched. |
| Ledger.SessionLedger.RecordCompletion | bookings/models.py:13 | The outside transition to completed: only that booking's status changes. |
| Ledger.SessionLedger.SubmitReview | bookings/serializers.py:263-300 | Accepted iff the rating is valid, the user's booking is completed and there is no earlier review. The review carries the session's class. |
| BookingViews.ModifiableStatuses | bookings/views.py:171-177 | The lookups find exactly the booked and waitlisted bookings. |
| BookingViews.ListUserBookings | bookings/views.py:35-65 | Lists exactly the user's rows that pass the status filter and the upcoming (≥ now) and past (< now) filters. |
| BookingViews.ListingFilters | bookings/views.py:41-59 | Both flags on list nothing. A status filter selects that one status. No filter lists all the user's rows. |
| BookingViews.CreateMessage | bookings/views.py:143-145 | The fixed text for a seat. For the waitlist, a message with the waitlist prefix that ends in ')'. |
| BookingViews.NatToStringInjective | bookings/views.py:145 | Different positions render differently. |
| BookingViews.CreateMessageReportsPosition | bookings/views.py:143-145 | The waitlist message parses back to its position, differs for different positions and is never the confirmation text. |
| BookingViews.CountRating | bookings/views.py:384 | The count is the size of the sub-list of reviews with that rating, so it never exceeds the number of reviews. |
| BookingViews.RatingCountsCoverAll | bookings/views.py:382-386 | The five counts add up to the number of reviews. |
| BookingViews.RatingKeys | bookings/views.py:385 | Every key "1".."n" is present. |
| BookingViews.RatingKeysOnly | bookings/views.py:385 | Every key is the text of some rating from 1 to n, so the keys are exactly "1".."n". |
| BookingViews.RatingDistribution | bookings/views.py:378-386 | Keys are exactly "1".."5", and each maps to the count of reviews with that rating. |
| BookingViews.ReviewValidatedAttrs | bookings/serializers.py:249-259 | Validated data keeps only the writable fields, so `class_schedule` is never among them. |
| BookingViews.ReviewScheduleLookup | bookings/serializers.py:268 | `attrs['class_schedule']` succeeds iff the key is present and otherwise raises `KeyError`. |
| BookingViews.ReviewCreateAlwaysFails | bookings/views.py:296-313 | As written, every review request that parses ends in the generic 500 (Finding 1). |
| ClassViews.Keys | classes/views.py:424-442 | The parameter names of the mapping, in order. |
| ClassViews.AppliedFiltersParams | classes/views.py:444-452 | The applied parameters are the mapping's keys, in mapping order, filtered to those given with a non-empty value. |
| ClassViews.AppliedFiltersEntries | classes/views.py:444-452 | Each entry pairs a mapped (parameter, display name) with the parameter's non-empty value. |
| ClassViews.FilterMappingKeysDistinct | classes/views.py:424-442 | The 17 parameter names are distinct, so each appears at most once. |
| ClassViews.GetAppliedFilters | classes/views.py:419-452 | The loop builds exactly the applied-filter list over the 17-entry mapping. |
| ClassViews.OnDay | classes/views.py:608-615 | The events of one date are input events dated that day. |
| ClassViews.DaysMembership | classes/views.py:608-617 | A date is a group key iff some event falls on it. |
| ClassViews.DaysDistinct | classes/views.py:610-617 | No date is grouped twice. |
| ClassViews.Grouping | classes/views.py:601-640 | One group per date, holding that date's events. |
| ClassViews.FindGroup | classes/views.py:610 | The first group with the date, or none. |
| ClassViews.OnDayNone | classes/views.py:610-617 | A date with no event has no events. |
| ClassViews.FindGroupInGrouping | classes/views.py:610 | The lookup finds a date's group iff the date has an event. |
| ClassViews.OnDayAppend | classes/views.py:634 | A new event joins its own date only. |
| ClassViews.GroupingAppendNew | classes/views.py:610-617 | An event on a new date opens a new last group. |
| ClassViews.GroupingAppendExisting | classes/views.py:634 | An event on a known date is appended to that group only. |
| ClassViews.InsertByStart | classes/views.py:638 | Inserting keeps all events: one more, same multiset. |
| ClassViews.InsertStartsBy | classes/views.py:638 | Inserting an event no later than a bound keeps every start within that bound. |
| ClassViews.InsertSorted | classes/views.py:638 | Inserting into a sorted list keeps it sorted. |
| ClassViews.SortByStart | classes/views.py:636-638 | The result is sorted by start time and is a permutation of the input. |
| ClassViews.CollectByDate | classes/views.py:605-634 | The loop builds exactly `Grouping(events)`. |
| ClassViews.SortGroups | classes/views.py:636-638 | Each group's events are sorted and nothing else changes. |
| ClassViews.GroupByDate | classes/views.py:601-640 | One group per date, in first-appearance order, each holding that date's events sorted by start. |
| ClassViews.EachEventInOneGroup | classes/views.py:601-640 | Every event appears in the group of its own date and in no other. |
| ClassViews.OnDayKeeps | classes/views.py:634 | An event is in its own date's group. |
| ClassViews.TotalEventsAppend | classes/views.py:605-634 | The event total is additive. |
| ClassViews.TotalEventsGrow | classes/views.py:634 | Appending one event raises the total by one. |
| ClassViews.GroupingTotal | classes/views.py:605-634 | The groups hold as many events as the input. |
| ClassViews.SortedTotal | classes/views.py:636-638 | Sorting the groups keeps the total. |
| ClassViews.FirstOn | classes/views.py:610-617 | The index of the first event on a date. |
| ClassViews.DaysInFirstAppearanceOrder | classes/views.py:610-617 | Groups appear in the order of their first event. |
| ClassViews.HourOf | classes/views.py:338 | The hour of a time lies in 0..23. |
| ClassViews.TimeOfDayPartition | classes/views.py:333-355 | Each hour falls in exactly one of morning [6,12), afternoon [12,17), evening [17,22) and night [22,24)∪[0,6). |
| ClassViews.TimeOfDayUnknown | classes/views.py:334-355 | An unknown time-of-day value filters nothing. |
| ClassViews.PythonWeekday | classes/views.py:361 | A weekday is 0..6, with Monday 0. |
| ClassViews.DjangoWeekDay | classes/views.py:363 | Django's `week_day` is 1..7, with Sunday 1 and Monday 2. |
| ClassViews.DayOfWeekFilterAsWritten | classes/views.py:358-366 | A filter is set only when the parameter parses as an integer n, and it is then n + 1. |
| ClassViews.DayOfWeekAsWrittenOffByOne | classes/views.py:357-366 | As written, "n" selects the weekday before n (Finding 2). |
| ClassViews.DayOfWeekMondayNotSelected | classes/views.py:361-363 | As written, "0" does not select a Monday (Finding 2). |
| ClassViews.DayOfWeekFilter | classes/views.py:358-366 | Unfiltered iff the parameter is absent, empty or not an integer (the `ValueError` path). |
| ClassViews.DayOfWeekSelectsThatDay | classes/views.py:361 | Corrected: "n" selects exactly the sessions on weekday n (0 = Monday), as the comment intends. |
| ClassViews.DayOfWeekFiltersOfNumber | classes/views.py:360-363 | As written the filter is n + 1. Corrected, it is the Django number of weekday n. |
| ClassViews.PeriodDays | classes/views.py:943-952 | Week gives 7 and year 365. Month, a missing value or anything else gives 30. |
| ClassViews.PeriodStart | classes/views.py:1278-1287 | The start lies exactly that many days before now. |
| ClassViews.PeriodDefaultsToMonth | classes/views.py:943-952 | Any period other than week or year gives the month default. |
| Users.CreateUser | users/models.py:13-23 | An empty email is refused with "The Email field must be set". Otherwise the user has the given email and no last login. Passed fields are used and the rest default: type "user", not staff, not superuser, active. |
| Users.FlagDefaultsTrue | users/models.py:29-34 | `setdefault(True)` then `is not True` passes only for a flag not passed or passed as `True`. An explicit `None`, `False`, `1` or `"True"` is refused. |
| Users.CreateSuperuser | users/models.py:25-35 | A staff flag other than absent or `True` is refused with the is_staff message. That check comes first. The superuser flag is refused the same way with its own message. Otherwise it is `create_user` with both flags set. |
| Users.SuperuserFlags | users/models.py:25-35 | Succeeds iff the email is non-empty and each flag is absent or `True`. An explicit `None` staff flag or a `1` superuser flag is refused. The default type is "user". |
| Users.CreatedUserString | users/models.py:88-92 | A created user prints as its email. |
| Users.FullName | users/models.py:95-99 | The full name never starts or ends with whitespace. |
| Users.FullNameCases | users/models.py:95-99 | It is "first last" for names without outer whitespace, and "" when both names are empty. |
| Users.DisplayName | users/models.py:115-121 | The full name when non-empty. Otherwise the part of the email before the first '@'. |
| Users.UserTypeRoles | users/models.py:102-113 | Never both agent and investor. The default type is neither; type "agent" is an agent. |
| Users.UpdateLastLogin | users/models.py:130-135 | Stamps the login time and changes nothing else. |
| UserUtils.DropFinalNewline | users/utils.py:26 | Drops at most one final character. |
| UserUtils.OptionalOneShape | users/utils.py:26 | `1?\d{9,15}$` matches iff, after one optional final newline, the rest is 9–15 digits, or 16 digits starting with '1'. |
| UserUtils.PhoneNumberCharacterization | users/utils.py:12-27 | Accepted iff empty, or an optional '+' then 9–15 digits (or 16 starting with '1'), with one trailing newline tolerated. |
| UserUtils.PhoneNumberAccepted | users/utils.py:26-27 | The number used throughout the tests is accepted. |
| UserUtils.PhoneNumberRejected | users/utils.py:26-27 | Too short, a letter, or a doubled '+' is rejected. |
| UserUtils.UserTypeMsgText | users/utils.py:66-68 | The message lists the four choices in declaration order. |
| UserUtils.RunChecks | users/utils.py:45-68 | The "required" and "invalid" email checks never both fire. |
| UserUtils.ErrorsOfMeaning | users/utils.py:42-71 | Each field key is present iff its check fails, with that check's message. No other key appears. No errors iff every check passes. |
| UserUtils.UserDataErrorsFields | users/utils.py:45-68 | Email: required when empty after strip, otherwise invalid when the validator refuses it. Password: shorter than 8. Phone: non-empty and not accepted. User type: non-empty and not a choice. |
| UserUtils.ValidateUserData | users/utils.py:29-73 | Returns the input unchanged iff there are no errors. Otherwise raises all the errors together. |
| Responses.DataOrEmpty | core/utils.py:6 | None becomes {}. Any other data passes through. |
| Responses.Success | core/utils.py:3-8 | Message and data as given (None becomes {}), and the error is None. |
| Responses.Error | core/utils.py:11-15 | Message, error and data as given (None becomes {}). |
| Responses.SuccessIsErrorWithoutError | core/utils.py:3-15 | `success` is `error` with no error. The defaults are "Success", "Error" and {}. |
| Responses.ToValue | core/utils.py:4-8 | Exactly the keys message, data and error. |
| Responses.ToValueInjective | core/utils.py:4-8 | The dictionary determines the envelope. |
| Exceptions.DefaultStatus | core/exceptions.py:8 | The status codes are 400, 400, 401, 404 and 500, one per class. |
| Exceptions.NewException | core/exceptions.py:32-50 | Carries the class's status code and the given detail or the class default. |
| Exceptions.NewCustomException | core/exceptions.py:4-15 | 400 unless a status code is passed, which is then adopted. |
| Exceptions.HandleException | core/exceptions.py:22-30 | API exception: "Error", its detail and its code. Anything else: "Internal server error", `str(exc)` and 500. |
| Exceptions.HandledStatusCodes | core/exceptions.py:32-50 | The handler passes on each class's code. A default detail shows its text. |
| Decorators.HandleApiExceptions | core/decorators.py:34-60 | A response passes through. An API exception gives "Error" with `str(detail)` and its code. Anything else gives a fixed 500. |
| Decorators.UnexpectedExceptionsHidden | core/decorators.py:47-60 | An unexpected exception's text never reaches the response. |
| Decorators.DecoratorAgreesWithHandler | core/decorators.py:37-46 | The decorator and `handle_exception` agree on code and message, and on the body for a text detail. |
| Decorators.MissingFieldsIsFilter | core/decorators.py:143-146 | The missing list is the required list filtered by absent-or-falsy. |
| Decorators.MissingFieldsMembership | core/decorators.py:146 | A field is listed iff it is required and absent or falsy. |
| Decorators.ValidateRequiredFields | core/decorators.py:116-161 | The view is called iff no required field is missing, or when there is no request data. Otherwise a 400 reports "Missing required fields: a, b". |
| Decorators.PassThroughDecorators | core/decorators.py:63-207 | Logging and rate limiting (whose limits are never enforced) change no response, whatever the limits. |
| Strings.TrimStart | users/utils.py:45 | A suffix of the input that does not start with whitespace, with only whitespace removed. |
| Strings.TrimEnd | users/models.py:99 | A prefix of the input that does not end with whitespace, with only whitespace removed. |
| Strings.StripSlice | users/models.py:99 | `strip()` is a contiguous slice with only whitespace cut on each side. |
| Strings.StripNoop | users/models.py:99 | A string with no whitespace at either end is unchanged. |
| Strings.StripIdempotent | users/utils.py:45 | Stripping twice equals stripping once. |
| Strings.NatToString | bookings/views.py:145 | Decimal digits without a leading zero, denoting the number. |
| Strings.ParseIntToString | classes/views.py:360 | `int(str(i)) == i`. |
| Strings.ParseDigits | classes/views.py:360 | A digit string parses to its value. |
| Strings.ParseIntRejectsLetters | classes/views.py:360-365 | A stray non-digit character makes `int()` fail. |
| Strings.Join | core/decorators.py:149 | An empty list joins to "". A single item joins to itself. |
| Strings.JoinShape | core/decorators.py:149 | The join starts with the first item and ends with the last. Its length is the items' total length plus one separator between each pair. |
| Strings.IndexOf | users/models.py:121 | The index of the first occurrence, or the length. |
| Strings.BeforeFirst | users/models.py:121 | A prefix of the email without '@', which is the whole email when it has no '@'. |
| Seqs.FilterMembership | bookings/views.py:42-59 | An element is kept iff it is in the input and passes the test. |
| Seqs.FilterFilter | bookings/views.py:42-59 | Two successive filters equal one filter by their conjunction. |
| Seqs.CountIsFilterLength | bookings/views.py:384 | A count is the length of the filtered list. |

## Left out

- Users.CreateUser: the flags passed to `create_user` are taken as booleans. How Django stores a non-boolean value passed there is not modelled.
- Web plumbing is not modelled: the ORM, DRF field parsing and permissions, JWT, URL routing, admin pages, the sample-data migration, the management command and the thin user views and serializers. The database is a map in memory. Field-level checks such as the 500-character limit on a cancellation reason are not modelled.
- Library calls:
  - `validate_email` is a parameter of the registration check.
  - `normalize_email` is not applied: the email is stored as given.
  - Password hashing is not modelled.
  - `strftime` is not modelled: dates are integer day numbers, and time zones other than UTC are not modelled.
  - Logging is not modelled.
- The concurrency race between the capacity check and the increment in booking creation is not modelled: every operation runs sequentially.
- The analytics and dashboard views of classes/views.py are not modelled: they are database counts, float averages and month arithmetic. Only their period mapping is modelled.
- The class-search filters for time of day and day of week work on a class with several sessions. They are modelled on a single start time; "some session matches" is not modelled.
- Ledger.SessionLedger.RecordCompletion: no request path marks a booking completed. The transition is an outside input to the review rule.
- BookingViews.ListUserBookings: states membership, not the order by `-booking_time`.
- ClassViews.SortByStart: the sort key is the integer start time, not the rendered time text. Sort stability is not stated.
- ClassViews.GroupByDate: an event carries only its id and start time. The other fields it copies, and the `day_name` text, are not modelled.
- UserUtils.ValidateUserData: the errors are a map. Python's dict insertion order is not modelled.
- UserUtils.ValidatePhoneNumber: `\d` is modelled as the ASCII digits. Python also matches other Unicode decimal digits.
- Strings.ParseInt: underscores between digits and non-ASCII digits, both accepted by Python's `int()`, are not modelled.
- Query parameters given more than once are not modelled: each parameter has one value.
- The role checks for an instructor role and `is_admin` are not modelled, because the user model does not define them. `Class.average_rating` is a float average and is also left out.

## Findings

| source | as written | input that shows it | evidently intended | confidence | as-written member | corrected member |
|---|---|---|---|---|---|---|
| bookings/serializers.py:249-255, 268 | `ClassReviewSerializer` lists no `class_schedule` field, yet `validate` reads `attrs['class_schedule']`. The `KeyError` becomes the generic 500 | a POST with `{"class_schedule": 1, "rating": 5}` to the review endpoint | the session is a writable field, so an attended session can be reviewed once | not executed | BookingViews.ReviewCreateAlwaysFails | Ledger.SessionLedger.SubmitReview |
| classes/views.py:361-363 | `day_of_week=n` (0 = Monday) filters on Django `week_day == n + 1`, but Django's 2 is Monday | `day_of_week=0` with a session on Monday 1970-01-05 | n selects weekday n, i.e. `week_day == (n + 1) % 7 + 1` | not executed | ClassViews.DayOfWeekAsWrittenOffByOne | ClassViews.DayOfWeekSelectsThatDay |
