# EventEase registration and attendance store, in Dafny

This project models the registration and attendance record store of the
EventEase app (`Services/AttendanceService.cs`) together with the in-memory
user session it depends on (`Services/UserSessionService.cs`).

The attendance service keeps two append-mostly lists in browser storage.
Registrations are only ever appended or soft-cancelled; attendance records
are appended at check-in and closed at check-out. Each of the four mutating
operations (register, cancel, check in, check out) loads a whole list,
changes it in memory and writes the whole list back; the queries and the
statistics only read. Loading is fail-soft: a missing, empty, `null` or
unparseable value, or a read that throws, yields an empty list. Statistics are counts over the two lists. The session service caches
the current session and the user preferences in two fields, each backed by
its own storage key.

Layout:

- `Wrappers.dfy`: `Option` (C#'s `null`) and `Result` (a value or a thrown exception).
- `Time.dfy`: `Timestamp`, a `DateTime` as a tick count.
- `Storage.dfy`: what one storage key can hold once its text is deserialized
  (`Missing`, `EmptyText`, `Malformed`, `JsonNull`, `Json(v)`), and the
  fail-soft loads.
- `Seqs.dfy`: LINQ `Where`, `Count` and `FirstOrDefault` over sequences, with
  their laws (order kept under append, counting after an in-place update,
  uniqueness of the first match).
- `Ledger.dfy`: the two record types, their status enums, and the pure work of
  each attendance operation on a loaded list. This covers the first-match
  lookups, the soft cancel, building a check-in, closing a check-out and the
  statistics.
- `LedgerProperties.dfy`: how the operations combine, e.g. cancel-then-query,
  re-registration, repeated checkout and the effect of each operation on the
  counts and the rate.
- `Session.dfy`: the session and preferences values, their accessors with
  fallbacks, and the class `UserSessionService`.
- `Attendance.dfy`: the class `AttendanceService`. Its fields are the two
  storage keys and a reference to the session service. Each method is proved
  against the `Ledger` function that describes its effect.

Behaviour of the code that the model keeps as written:

- Check-in is refused only when the user has no registration at all for the
  event (`Services/AttendanceService.cs:154-155`). A cancelled registration
  still admits a check-in, and the new record points at the cancelled
  registration (`LedgerProperties.CheckInIgnoresCancellation`).
- "Is registered" is decided by the user's FIRST registration for the event
  (`Services/AttendanceService.cs:126-127`), not by whether any live one exists.
  So registering again after a cancel leaves the user reported as unregistered
  (`LedgerProperties.ReRegisterAfterCancelStaysUnregistered`). A later cancel
  hits the already-cancelled first record again.
- Neither registering nor checking in looks for an existing record. So
  neither "one live registration per user and event" nor "one open check-in
  per user and event" is guaranteed. Duplicate check-ins push the attendance
  rate above 100 (`LedgerProperties.RateAboveHundred`).
- Checkout never compares the checkout time with the check-in time, so the
  model claims no order between them.

## Model

| member | source | states |
|---|---|---|
| `Storage.LoadList` | Services/AttendanceService.cs:237-253 | a stored list loads as itself; a missing, empty, `null` or unparseable value loads as the empty list instead of failing |
| `Storage.LoadValue` | Services/UserSessionService.cs:51-68 | a stored object loads exactly when its text deserializes to one; otherwise there is none |
| `Seqs.Filter` | Services/AttendanceService.cs:106 | `Where` keeps exactly the elements satisfying the predicate and no others, never more than it was given |
| `Seqs.FilterAppend` | Services/AttendanceService.cs:112 | `Where` distributes over concatenation, so results come in stored order |
| `Seqs.Count` | Services/AttendanceService.cs:212 | `Count(p)` equals the length of `Where(p)` and is 0 exactly when no element satisfies `p` |
| `Seqs.CountAppend` | Services/AttendanceService.cs:218 | counting over a concatenation adds the counts of the parts |
| `Seqs.CountUpdate` | Services/AttendanceService.cs:140 | replacing one element changes a count by the old and new element's contributions only |
| `Seqs.CountOfFilter` | Services/AttendanceService.cs:211-212 | counting `q` among the elements that satisfy `p` equals counting `p && q` over the whole list |
| `Seqs.FirstIndex` | Services/AttendanceService.cs:118 | `FirstOrDefault` finds a matching position with no match before it, and finds none exactly when nothing matches |
| `Seqs.FirstIndexUnique` | Services/AttendanceService.cs:136 | any position that matches with no match before it is the one `FirstOrDefault` finds |
| `Seqs.FirstIndexAppend` | Services/AttendanceService.cs:233 | appending never moves an existing first match; the appended element becomes first only if nothing matched before |
| `Seqs.FirstIndexUpdate` | Services/AttendanceService.cs:140 | rewriting the first match with an element that still matches keeps it first |
| `Ledger.ResolveUserId` | Services/AttendanceService.cs:75 | a registration carries the session's user id when a session exists, otherwise the freshly generated id |
| `Ledger.NewRegistration` | Services/AttendanceService.cs:77-88 | a new registration has status `Registered` and carries the given event, user and contact data |
| `Ledger.FindRegistration` | Services/AttendanceService.cs:115-119 | the result is the first stored registration with that event and user id, and is none exactly when no registration matches |
| `Ledger.IsUserRegistered` | Services/AttendanceService.cs:121-128 | true iff a session exists, some registration matches the pair and the first such registration is not cancelled |
| `Ledger.CancelFirst` | Services/AttendanceService.cs:135-145 | true iff some registration matches; then only the first match becomes `Cancelled`, the length and all other records are unchanged; otherwise nothing changes |
| `Ledger.CheckIn` | Services/AttendanceService.cs:151-167 | fails with NotLoggedIn without a session, and with NotRegistered iff no registration matches; otherwise builds a `Present` open record carrying the first match's registration id and the notes |
| `Ledger.NotesText` | Services/AttendanceService.cs:184 | the check-in notes as the string concatenation reads them: a `null` value counts as the empty string, a present value as itself |
| `Ledger.Close` | Services/AttendanceService.cs:182-184 | sets the checkout time and changes nothing else except notes. Non-empty notes are appended behind a "Checkout:" separator, so the old notes stay a prefix; null old notes count as empty |
| `Ledger.CheckOutFirst` | Services/AttendanceService.cs:177-190 | true iff some record of the user for the event is open; then only the first open one is closed and the length and all other records are unchanged; otherwise nothing changes |
| `Ledger.FindAttendance` | Services/AttendanceService.cs:199-206 | none without a session; otherwise the user's first record for the event, open or closed, and none exactly when there is no such record |
| `Ledger.RegistrationCount` | Services/AttendanceService.cs:209-213 | equals the number of stored registrations for the event whose status is not `Cancelled` |
| `Ledger.AttendanceCount` | Services/AttendanceService.cs:215-219 | equals the number of stored records for the event whose status is `Present` |
| `Ledger.Rate` | Services/AttendanceService.cs:226 | 0 when there are no registrations; otherwise rate × registrations = attendance × 100; never negative |
| `Ledger.AttendanceRate` | Services/AttendanceService.cs:221-227 | 0 whenever the event has no live registration, whatever attendance records exist; otherwise the rate of the two counts |
| `LedgerProperties.IsUserRegisteredAfterAppend` | Services/AttendanceService.cs:121-128 | appending a registration changes "is registered" for a pair only if the pair had no registration before, and then the new record alone decides |
| `LedgerProperties.RegisterThenRegistered` | Services/AttendanceService.cs:74-91 | registering a pair with no registration yet makes `IsUserRegistered` true for it |
| `LedgerProperties.ReRegisterAfterCancelStaysUnregistered` | Services/AttendanceService.cs:126-127 | when the pair's first registration is cancelled, appending a new one leaves the user reported as not registered |
| `LedgerProperties.CancelThenNotRegistered` | Services/AttendanceService.cs:130-146 | after a cancel the user is not registered and the pair's record count is unchanged. After a successful cancel, the event's registration list shows a cancelled record for the user |
| `LedgerProperties.CheckInIgnoresCancellation` | Services/AttendanceService.cs:154-159 | a cancelled first registration still admits a check-in that points at it, while the same user is reported as not registered |
| `LedgerProperties.CheckInAddsOpenRecord` | Services/AttendanceService.cs:157-167 | a successful check-in adds one open record for the pair whatever open records exist already |
| `LedgerProperties.CheckOutClosesOne` | Services/AttendanceService.cs:177-190 | a successful checkout lowers the pair's open-record count by exactly one; a failed one means none was open |
| `LedgerProperties.SecondCheckOutFails` | Services/AttendanceService.cs:178-190 | with one open record, the first checkout succeeds and a second one right after returns false |
| `LedgerProperties.EventRegistrationsAfterRegister` | Services/AttendanceService.cs:109-113 | after a registration, the event's registration list is the old list plus the new record at its end when the record is for that event |
| `LedgerProperties.RegistrationCountAfterRegister` | Services/AttendanceService.cs:209-213 | a new registration adds one to its own event's count and nothing to any other event's |
| `LedgerProperties.RegistrationCountAfterCancel` | Services/AttendanceService.cs:130-146 | a cancel lowers the event's count by one exactly when the user's first registration for it was live; re-cancelling changes no count |
| `LedgerProperties.AttendanceCountAfterCheckIn` | Services/AttendanceService.cs:215-219 | a successful check-in adds one to its event's attendance count and nothing to other events' counts |
| `LedgerProperties.AttendanceCountAfterCheckOut` | Services/AttendanceService.cs:182-184 | checkout leaves the status alone, so no attendance count changes |
| `LedgerProperties.HalfAttendedEvent` | Services/AttendanceService.cs:221-227 | two users register for an event and one checks in, so the rate is 50 |
| `LedgerProperties.RateAboveHundred` | Services/AttendanceService.cs:149-167 | one registration with two check-ins gives a rate of 200, because repeated check-ins are allowed |
| `Session.NewSession` | Services/UserSessionService.cs:75-83 | a login session is logged in, carries the given name, email and phone and has no registered events |
| `Session.LoggedIn` | Services/UserSessionService.cs:147 | true iff a session exists and its `IsLoggedIn` is set |
| `Session.NameOf` | Services/UserSessionService.cs:153 | the session's name, or "Guest" without a session |
| `Session.EmailOf` | Services/UserSessionService.cs:159 | the session's email, or "" without a session |
| `Session.EventsOf` | Services/UserSessionService.cs:182 | the session's registered events, or none without a session |
| `Session.HasRegistered` | Services/UserSessionService.cs:176 | true iff the event is among the session's registered events; false without a session |
| `Session.WithEvent` | Services/UserSessionService.cs:166-168 | the event is listed afterwards and nothing else is added. A list without duplicates stays without, an already-listed event changes nothing, and the rest of the session is unchanged |
| `Session.AddEvent` | Services/UserSessionService.cs:163-171 | with a session the event becomes registered; without one there stays no session |
| `Session.ResolveSession` | Services/UserSessionService.cs:46-71 | a cached session is returned as is; otherwise the stored one, and none when the stored value is missing, empty, `null` or unparseable |
| `Session.ResolvePreferences` | Services/UserSessionService.cs:113-133 | cached preferences, else the stored ones, else the defaults (light, notifications on, en) |
| `Session.LoginIsObserved` | Services/UserSessionService.cs:144-154 | after login, the user is logged in and name, email and events come from the new session |
| `Session.LogoutIsObserved` | Services/UserSessionService.cs:144-160 | after logout, the user is not logged in, the name is "Guest" and the email is "" |
| `Session.AddEventsKeepNoDuplicates` | Services/UserSessionService.cs:163-177 | any sequence of additions keeps the registered events free of duplicates and leaves every added event registered; without a session nothing appears |
| `Session.AddAll` | Services/UserSessionService.cs:163-171 | repeated additions keep a session exactly when one existed |
| `Session.UserSessionService.constructor` | Services/UserSessionService.cs:12-15 | a new service caches nothing and observes whatever storage holds |
| `Session.UserSessionService.GetCurrentSession` | Services/UserSessionService.cs:46-71 | returns the cached session unchanged without consulting storage. Otherwise it loads, caches and re-stores; a failed load gives none. What callers observe does not change |
| `Session.UserSessionService.SaveSession` | Services/UserSessionService.cs:106-110 | the session key holds the given session |
| `Session.UserSessionService.LoginUser` | Services/UserSessionService.cs:73-89 | returns true and installs and stores a logged-in session with the given name, email and phone; preferences are untouched |
| `Session.UserSessionService.LogoutUser` | Services/UserSessionService.cs:91-96 | clears the cached session and removes the stored one, so nobody is logged in, the name is "Guest" and the email is "" |
| `Session.UserSessionService.UpdateSession` | Services/UserSessionService.cs:98-104 | the given session becomes current and is stored |
| `Session.UserSessionService.GetUserPreferences` | Services/UserSessionService.cs:113-133 | returns the cached preferences, else the stored ones, else the defaults, and caches the result |
| `Session.UserSessionService.SaveUserPreferences` | Services/UserSessionService.cs:135-141 | the preferences become current and are stored; the session is untouched |
| `Session.UserSessionService.IsUserLoggedIn` | Services/UserSessionService.cs:144-148 | true iff there is a session and it is marked logged in |
| `Session.UserSessionService.GetUserName` | Services/UserSessionService.cs:150-154 | the session's name, "Guest" without one |
| `Session.UserSessionService.GetUserEmail` | Services/UserSessionService.cs:156-160 | the session's email, "" without one |
| `Session.UserSessionService.AddRegisteredEvent` | Services/UserSessionService.cs:163-171 | with a session the event becomes registered and no duplicate appears, and when it was newly added the session key holds the updated session, so a reload sees it; without a session, or with the event already listed, the key is unchanged |
| `Session.UserSessionService.IsRegisteredForEvent` | Services/UserSessionService.cs:173-177 | true iff the session lists the event; false without a session |
| `Session.UserSessionService.GetRegisteredEvents` | Services/UserSessionService.cs:179-183 | the session's registered events, or none without a session |
| `Session.SessionLifecycle` | Services/UserSessionService.cs:73-177 | login, registering one event twice, then logout: the event is listed once while logged in, and afterwards the name is "Guest" and no event is registered |
| `Attendance.UserIdOf` | Services/AttendanceService.cs:102-106 | the acting user id exists exactly when a session exists, and is that session's id |
| `Attendance.AttendanceService.constructor` | Services/AttendanceService.cs:12-16 | the service works over the given session service and storage |
| `Attendance.AttendanceService.AllRegistrations` | Services/AttendanceService.cs:237-253 | the stored registrations when the key deserializes to a list; otherwise (missing, empty, `null`, unparseable or a read that throws) the empty list |
| `Attendance.AttendanceService.SaveAllRegistrations` | Services/AttendanceService.cs:255-259 | the registrations key holds exactly the given list, overwriting what was there |
| `Attendance.AttendanceService.SaveRegistration` | Services/AttendanceService.cs:230-235 | the stored list is the loaded list plus the new registration at its end |
| `Attendance.AttendanceService.AllAttendance` | Services/AttendanceService.cs:268-284 | the stored attendance records when the key deserializes to a list; otherwise the empty list |
| `Attendance.AttendanceService.SaveAllAttendance` | Services/AttendanceService.cs:286-290 | the records key holds exactly the given list |
| `Attendance.AttendanceService.SaveAttendance` | Services/AttendanceService.cs:261-266 | the stored list is the loaded list plus the new record at its end |
| `Attendance.AttendanceService.RegisterForEvent` | Services/AttendanceService.cs:66-98 | appends one `Registered` record with the given event and the resolved user id, grows the list by exactly one, keeps every earlier record and marks the event in the session, storing the updated session under the session key when the event was newly added |
| `Attendance.AttendanceService.GetUserRegistrations` | Services/AttendanceService.cs:100-107 | none without a session; otherwise the stored registrations of the session's user, in stored order |
| `Attendance.AttendanceService.GetEventRegistrations` | Services/AttendanceService.cs:109-113 | exactly the stored registrations with that event id, in stored order |
| `Attendance.AttendanceService.GetRegistration` | Services/AttendanceService.cs:115-119 | the first registration for the pair, if any |
| `Attendance.AttendanceService.IsUserRegisteredForEvent` | Services/AttendanceService.cs:121-128 | false without a session; otherwise whether the user's first registration for the event is not cancelled |
| `Attendance.AttendanceService.CancelRegistration` | Services/AttendanceService.cs:130-146 | false with no write without a session or without a match. Otherwise the first match becomes `Cancelled`, the list is written back, and its length and other records are unchanged |
| `Attendance.AttendanceService.CheckIn` | Services/AttendanceService.cs:149-170 | fails as not logged in or not registered and then appends nothing; otherwise appends exactly the open `Present` record described by `Ledger.CheckIn` |
| `Attendance.AttendanceService.CheckOut` | Services/AttendanceService.cs:172-191 | false with no write without a session or an open record; otherwise closes only the first open record and writes the list back |
| `Attendance.AttendanceService.GetEventAttendance` | Services/AttendanceService.cs:193-197 | exactly the stored attendance records with that event id, in stored order |
| `Attendance.AttendanceService.GetUserAttendance` | Services/AttendanceService.cs:199-206 | none without a session; otherwise the user's first record for the event |
| `Attendance.AttendanceService.GetEventRegistrationCount` | Services/AttendanceService.cs:209-213 | the number of stored registrations for the event that are not cancelled |
| `Attendance.AttendanceService.GetEventAttendanceCount` | Services/AttendanceService.cs:215-219 | the number of stored records for the event with status `Present` |
| `Attendance.AttendanceService.GetEventAttendanceRate` | Services/AttendanceService.cs:221-227 | the rate of the two counts, and 0 when the event has no live registration |

## Left out

- Serialization: the JSON text and the browser storage calls are not modelled. A storage key is a value that either deserializes or not. Every read is wrapped in a `try`/`catch` (Services/AttendanceService.cs:239-250 and :270-281, Services/UserSessionService.cs:51-68 and :118-129), so a read that throws yields the empty list, no session or the defaults; the model covers it as `Malformed`. Writes are not caught (Services/AttendanceService.cs:258 and :289, Services/UserSessionService.cs:94, :109 and :139) and a failing write would propagate to the caller; the model has no failing write, so every write succeeds.
- `Guid.NewGuid()` and `DateTime.Now` are nondeterministic. They are parameters of the methods that use them (`freshUserId`, `freshRegistrationId`, `freshAttendanceId`, `now`).
- Asynchrony and concurrency: each call is atomic and single-threaded, so the lost update between two concurrent read-modify-write calls is not modelled.
- The callbacks `OnRegistrationCreated`, `OnAttendanceRecorded`, `OnSessionChanged` and `OnPreferencesChanged` are observer plumbing with no effect on the state, so they are not modelled.
- Ledger.Rate: exact real arithmetic instead of IEEE double rounding.
- The `LastActivity` refresh in `GetCurrentSessionAsync` and `UpdateSessionAsync` is not modelled. It is timestamp bookkeeping only. Because of it, re-storing a loaded session writes back the same value.
- Aliasing of the cached objects: a cached `UserSession` or `UserPreferences` is a shared object in C#, but here it is a value held in the cache field. The service hands out live references to it (`GetCurrentSessionAsync` returns `_currentSession` at Services/UserSessionService.cs:49 and :70, `GetRegisteredEventsAsync` returns the live `RegisteredEvents` list at :182, `GetUserPreferencesAsync` returns `_currentPreferences` at :116 and :132), and `UpdateSessionAsync` caches the caller's own object (:102). Changes a caller makes through such a reference, which alter the cache without a write to storage, are not modelled.
- Session.UserSessionService.GetCurrentSession: a failure while re-storing a freshly loaded session is caught by the code and drops the session; storage writes cannot fail in this model.
- A stored session whose `RegisteredEvents` deserializes to `null` would make `AddRegisteredEventAsync` throw. The model's session always has a list.
- `Services/EventService.cs` (the fixed event catalog) is not part of this model.
