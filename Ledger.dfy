/**
  Registration and attendance records and the pure computations the attendance
  service performs on a loaded list: the LINQ filters and first-match lookups,
  the in-place soft cancel and check-out, the construction of a check-in, and
  the statistics.
*/
module Ledger {
  import opened Wrappers
  import opened Seqs
  import opened Time

  datatype RegistrationStatus = Registered | Confirmed | Cancelled | Waitlisted

  datatype AttendanceStatus = Present | Absent | Late | LeftEarly

  datatype EventRegistration = EventRegistration(
    registrationId: string,
    userId: string,
    eventId: string,
    userName: string,
    userEmail: string,
    userPhone: string,
    registrationDate: Timestamp,
    status: RegistrationStatus,
    specialRequests: Option<string>,
    emailNotifications: bool)

  datatype AttendanceRecord = AttendanceRecord(
    attendanceId: string,
    registrationId: string,
    eventId: string,
    userId: string,
    checkInTime: Timestamp,
    checkOutTime: Option<Timestamp>,
    status: AttendanceStatus,
    notes: Option<string>)

  /** The two exceptions `CheckInAsync` throws. */
  datatype CheckInError = NotLoggedIn | NotRegistered

  // The predicates of the service's LINQ queries.

  function RegistrationOfUser(userId: string): EventRegistration -> bool
  {
    (r: EventRegistration) => r.userId == userId
  }

  function RegistrationOfEvent(eventId: string): EventRegistration -> bool
  {
    (r: EventRegistration) => r.eventId == eventId
  }

  /** The `(eventId, userId)` key of `GetRegistrationAsync` and `CancelRegistrationAsync`. */
  function RegistrationFor(eventId: string, userId: string): EventRegistration -> bool
  {
    (r: EventRegistration) => r.eventId == eventId && r.userId == userId
  }

  const NotCancelled: EventRegistration -> bool := (r: EventRegistration) => r.status != Cancelled

  function LiveRegistrationOfEvent(eventId: string): EventRegistration -> bool
  {
    (r: EventRegistration) => r.eventId == eventId && r.status != Cancelled
  }

  function AttendanceOfEvent(eventId: string): AttendanceRecord -> bool
  {
    (a: AttendanceRecord) => a.eventId == eventId
  }

  function AttendanceFor(eventId: string, userId: string): AttendanceRecord -> bool
  {
    (a: AttendanceRecord) => a.eventId == eventId && a.userId == userId
  }

  /** The key of `CheckOutAsync`: the user's record for the event with no checkout time. */
  function OpenAttendanceFor(eventId: string, userId: string): AttendanceRecord -> bool
  {
    (a: AttendanceRecord) => a.eventId == eventId && a.userId == userId && a.checkOutTime.None?
  }

  const IsPresent: AttendanceRecord -> bool := (a: AttendanceRecord) => a.status == Present

  function PresentAtEvent(eventId: string): AttendanceRecord -> bool
  {
    (a: AttendanceRecord) => a.eventId == eventId && a.status == Present
  }

  /** `session?.UserId ?? <fresh id>`: the user id a new registration carries. */
  function ResolveUserId(sessionUserId: Option<string>, freshUserId: string): (userId: string)
    ensures sessionUserId.Some? ==> userId == sessionUserId.value
    ensures sessionUserId.None? ==> userId == freshUserId
  {
    match sessionUserId
    case Some(u) => u
    case None => freshUserId
  }

  /** The record `RegisterForEventAsync` creates: always with status `Registered`. */
  function NewRegistration(
    registrationId: string, userId: string, eventId: string,
    userName: string, userEmail: string, userPhone: string,
    specialRequests: Option<string>, emailNotifications: bool, now: Timestamp): (r: EventRegistration)
    ensures r.status == Registered && r.status != Cancelled
    ensures r.registrationId == registrationId && r.userId == userId && r.eventId == eventId
    ensures RegistrationFor(eventId, userId)(r)
    ensures r.userName == userName && r.userEmail == userEmail && r.userPhone == userPhone
    ensures r.specialRequests == specialRequests && r.emailNotifications == emailNotifications
    ensures r.registrationDate == now
  {
    EventRegistration(registrationId, userId, eventId, userName, userEmail, userPhone,
                      now, Registered, specialRequests, emailNotifications)
  }

  /** `GetRegistrationAsync`: the first registration for `(eventId, userId)`, if any. */
  function FindRegistration(rs: seq<EventRegistration>, eventId: string, userId: string): (r: Option<EventRegistration>)
    ensures r.None? <==> forall i :: 0 <= i < |rs| ==> !(rs[i].eventId == eventId && rs[i].userId == userId)
    ensures r.Some? ==> exists i :: IsFirst(rs, i, RegistrationFor(eventId, userId)) && r.value == rs[i]
    ensures r.Some? ==> r.value in rs && r.value.eventId == eventId && r.value.userId == userId
  {
    match FirstIndex(rs, RegistrationFor(eventId, userId))
    case Some(i) => Some(rs[i])
    case None => None
  }

  /**
    `IsUserRegisteredForEventAsync`: decided by the FIRST registration for the
    pair alone, so a later live registration behind a cancelled one is not seen.
  */
  function IsUserRegistered(rs: seq<EventRegistration>, sessionUserId: Option<string>, eventId: string): (b: bool)
    ensures b <==> (sessionUserId.Some? &&
      exists i :: IsFirst(rs, i, RegistrationFor(eventId, sessionUserId.value)) && rs[i].status != Cancelled)
    ensures sessionUserId.None? ==> !b
  {
    match sessionUserId
    case None => false
    case Some(u) =>
      match FirstIndex(rs, RegistrationFor(eventId, u))
      case None => false
      case Some(i) =>
        assert forall k :: IsFirst(rs, k, RegistrationFor(eventId, u)) ==> k == i by {
          forall k | IsFirst(rs, k, RegistrationFor(eventId, u)) ensures k == i {
            FirstIndexUnique(rs, k, RegistrationFor(eventId, u));
          }
        }
        rs[i].status != Cancelled
  }

  /**
    `CancelRegistrationAsync` on the loaded list once the user is known: the
    first registration for the pair gets status `Cancelled` (whatever it was
    before) and the flag says whether there was one. Nothing is removed and
    no other record changes.
  */
  function CancelFirst(rs: seq<EventRegistration>, eventId: string, userId: string): (r: (bool, seq<EventRegistration>))
    ensures |r.1| == |rs|
    ensures r.0 <==> exists i :: 0 <= i < |rs| && rs[i].eventId == eventId && rs[i].userId == userId
    ensures !r.0 ==> r.1 == rs
    ensures forall i :: 0 <= i < |rs| ==>
      r.1[i] == if r.0 && IsFirst(rs, i, RegistrationFor(eventId, userId)) then rs[i].(status := Cancelled) else rs[i]
  {
    match FirstIndex(rs, RegistrationFor(eventId, userId))
    case None => (false, rs)
    case Some(i) =>
      assert forall k :: IsFirst(rs, k, RegistrationFor(eventId, userId)) ==> k == i by {
        forall k | IsFirst(rs, k, RegistrationFor(eventId, userId)) ensures k == i {
          FirstIndexUnique(rs, k, RegistrationFor(eventId, userId));
        }
      }
      (true, rs[i := rs[i].(status := Cancelled)])
  }

  /**
    `CheckInAsync` on the loaded registrations: fails without a session, fails
    when the user has no registration for the event at all (a cancelled one is
    enough to pass), and otherwise builds an open `Present` record that points
    at the first registration for the pair.
  */
  function CheckIn(
    rs: seq<EventRegistration>, sessionUserId: Option<string>, eventId: string,
    notes: Option<string>, attendanceId: string, now: Timestamp): (r: Result<AttendanceRecord, CheckInError>)
    ensures sessionUserId.None? ==> r == Failure(NotLoggedIn)
    ensures sessionUserId.Some? ==>
      (r.Failure? <==> forall i :: 0 <= i < |rs| ==> !(rs[i].eventId == eventId && rs[i].userId == sessionUserId.value))
    ensures sessionUserId.Some? && r.Failure? ==> r.error == NotRegistered
    ensures r.Success? ==> (sessionUserId.Some? &&
      exists i :: IsFirst(rs, i, RegistrationFor(eventId, sessionUserId.value)) &&
        r.value == AttendanceRecord(attendanceId, rs[i].registrationId, eventId, sessionUserId.value,
                                    now, None, Present, notes))
    ensures r.Success? ==> (r.value.status == Present && r.value.checkOutTime.None? &&
      OpenAttendanceFor(eventId, sessionUserId.value)(r.value) && r.value.notes == notes)
  {
    match sessionUserId
    case None => Failure(NotLoggedIn)
    case Some(u) =>
      match FindRegistration(rs, eventId, u)
      case None => Failure(NotRegistered)
      case Some(reg) =>
        Success(AttendanceRecord(attendanceId, reg.registrationId, eventId, u, now, None, Present, notes))
  }

  /** `Notes` as C# string concatenation sees it: `null` reads as the empty string. */
  function NotesText(notes: Option<string>): (text: string)
    ensures notes.None? ==> text == ""
    ensures notes.Some? ==> text == notes.value
  {
    match notes
    case Some(n) => n
    case None => ""
  }

  /**
    One record after checkout: the checkout time is set, and non-empty checkout
    notes are appended behind a separator, keeping the check-in notes as a prefix.
  */
  function Close(a: AttendanceRecord, now: Timestamp, notes: Option<string>): (c: AttendanceRecord)
    ensures c.checkOutTime == Some(now)
    ensures c.(checkOutTime := a.checkOutTime, notes := a.notes) == a
    ensures NotesText(a.notes) <= NotesText(c.notes)
    ensures notes.None? || notes == Some("") ==> c.notes == a.notes
    ensures notes.Some? && notes.value != "" ==>
      c.notes.Some? && c.notes.value == NotesText(a.notes) + " | Checkout: " + notes.value
  {
    var closed := a.(checkOutTime := Some(now));
    if notes.Some? && notes.value != "" then
      closed.(notes := Some(NotesText(a.notes) + " | Checkout: " + notes.value))
    else closed
  }

  /**
    `CheckOutAsync` on the loaded list once the user is known: only the first
    open record of the user for the event is closed; the flag says whether
    there was one, and no other record changes.
  */
  function CheckOutFirst(
    records: seq<AttendanceRecord>, eventId: string, userId: string,
    now: Timestamp, notes: Option<string>): (r: (bool, seq<AttendanceRecord>))
    ensures |r.1| == |records|
    ensures r.0 <==> exists i :: 0 <= i < |records| && OpenAttendanceFor(eventId, userId)(records[i])
    ensures !r.0 ==> r.1 == records
    ensures forall i :: 0 <= i < |records| ==>
      r.1[i] == if r.0 && IsFirst(records, i, OpenAttendanceFor(eventId, userId)) then Close(records[i], now, notes)
                else records[i]
  {
    match FirstIndex(records, OpenAttendanceFor(eventId, userId))
    case None => (false, records)
    case Some(i) =>
      assert forall k :: IsFirst(records, k, OpenAttendanceFor(eventId, userId)) ==> k == i by {
        forall k | IsFirst(records, k, OpenAttendanceFor(eventId, userId)) ensures k == i {
          FirstIndexUnique(records, k, OpenAttendanceFor(eventId, userId));
        }
      }
      (true, records[i := Close(records[i], now, notes)])
  }

  /** `GetUserAttendanceAsync`: the first record of the user for the event, open or not. */
  function FindAttendance(records: seq<AttendanceRecord>, sessionUserId: Option<string>, eventId: string): (r: Option<AttendanceRecord>)
    ensures sessionUserId.None? ==> r.None?
    ensures sessionUserId.Some? ==>
      (r.None? <==> forall i :: 0 <= i < |records| ==> !AttendanceFor(eventId, sessionUserId.value)(records[i]))
    ensures r.Some? ==> (sessionUserId.Some? &&
      exists i :: IsFirst(records, i, AttendanceFor(eventId, sessionUserId.value)) && r.value == records[i])
  {
    match sessionUserId
    case None => None
    case Some(u) =>
      match FirstIndex(records, AttendanceFor(eventId, u))
      case Some(i) => Some(records[i])
      case None => None
  }

  /** `GetEventRegistrationCountAsync`: the event's registrations that are not cancelled. */
  function RegistrationCount(rs: seq<EventRegistration>, eventId: string): (n: nat)
    ensures n == Count(rs, LiveRegistrationOfEvent(eventId))
    ensures n <= |Filter(rs, RegistrationOfEvent(eventId))|
  {
    CountOfFilter(rs, RegistrationOfEvent(eventId), NotCancelled, LiveRegistrationOfEvent(eventId));
    Count(Filter(rs, RegistrationOfEvent(eventId)), NotCancelled)
  }

  /** `GetEventAttendanceCountAsync`: the event's records with status `Present`. */
  function AttendanceCount(records: seq<AttendanceRecord>, eventId: string): (n: nat)
    ensures n == Count(records, PresentAtEvent(eventId))
    ensures n <= |Filter(records, AttendanceOfEvent(eventId))|
  {
    CountOfFilter(records, AttendanceOfEvent(eventId), IsPresent, PresentAtEvent(eventId));
    Count(Filter(records, AttendanceOfEvent(eventId)), IsPresent)
  }

  /**
    `(double)attendanceCount / registrationCount * 100` when there are
    registrations, else 0, in exact arithmetic.
  */
  function Rate(attendanceCount: nat, registrationCount: nat): (rate: real)
    ensures registrationCount == 0 ==> rate == 0.0
    ensures registrationCount > 0 ==> rate * (registrationCount as real) == (attendanceCount as real) * 100.0
    ensures rate >= 0.0
  {
    if registrationCount > 0 then
      var q := (attendanceCount as real) / (registrationCount as real);
      assert q * (registrationCount as real) == attendanceCount as real;
      assert (q * 100.0) * (registrationCount as real) == (q * (registrationCount as real)) * 100.0;
      q * 100.0
    else 0.0
  }

  /** `GetEventAttendanceRateAsync`: attendance as a percentage of live registrations, 0 when there are none. */
  function AttendanceRate(rs: seq<EventRegistration>, records: seq<AttendanceRecord>, eventId: string): (rate: real)
    ensures RegistrationCount(rs, eventId) == 0 ==> rate == 0.0
    ensures rate == Rate(AttendanceCount(records, eventId), RegistrationCount(rs, eventId))
  {
    Rate(AttendanceCount(records, eventId), RegistrationCount(rs, eventId))
  }
}
