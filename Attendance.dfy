/**
  The attendance service. Each of its four mutating operations (register,
  cancel, check in, check out) reads a whole stored list, changes it in
  memory and writes the whole list back under the same key; the queries and
  statistics only read. The session it acts for comes from the session service.
*/
module Attendance {
  import opened Wrappers
  import opened Storage
  import opened Seqs
  import opened Ledger
  import opened Time
  import Session

  /** `session?.UserId`: the user the service acts for, if anyone is logged in. */
  function UserIdOf(session: Option<Session.UserSession>): (userId: Option<string>)
    ensures userId.Some? <==> session.Some?
    ensures session.Some? ==> userId.value == session.value.userId
  {
    match session
    case Some(s) => Some(s.userId)
    case None => None
  }

  /**
    `registrationsKey` and `recordsKey` are what the keys
    `eventease_attendance_registrations` and `eventease_attendance_records` hold.
  */
  class AttendanceService {
    const sessions: Session.UserSessionService
    var registrationsKey: Stored<seq<EventRegistration>>
    var recordsKey: Stored<seq<AttendanceRecord>>

    /** `GetAllRegistrationsAsync`: the stored registrations, or none when they do not load. */
    function AllRegistrations(): (rs: seq<EventRegistration>)
      reads this
      ensures registrationsKey.Json? ==> rs == registrationsKey.value
      ensures !registrationsKey.Json? ==> rs == []
    {
      LoadList(registrationsKey)
    }

    /** `GetAllAttendanceAsync`: the stored attendance records, or none when they do not load. */
    function AllAttendance(): (records: seq<AttendanceRecord>)
      reads this
      ensures recordsKey.Json? ==> records == recordsKey.value
      ensures !recordsKey.Json? ==> records == []
    {
      LoadList(recordsKey)
    }

    /** The user the next operation will act for. */
    function CurrentUserId(): Option<string>
      reads sessions
    {
      UserIdOf(sessions.Observed())
    }

    constructor (sessions: Session.UserSessionService,
                 registrationsKey: Stored<seq<EventRegistration>>,
                 recordsKey: Stored<seq<AttendanceRecord>>)
      ensures this.sessions == sessions
      ensures this.registrationsKey == registrationsKey && this.recordsKey == recordsKey
    {
      this.sessions := sessions;
      this.registrationsKey := registrationsKey;
      this.recordsKey := recordsKey;
    }

    method SaveAllRegistrations(rs: seq<EventRegistration>)
      modifies this`registrationsKey
      ensures registrationsKey == Json(rs) && AllRegistrations() == rs
    {
      registrationsKey := Json(rs);
    }

    /** Load, append one, save: on a key that did not load the old content is lost. */
    method SaveRegistration(registration: EventRegistration)
      modifies this`registrationsKey
      ensures AllRegistrations() == old(AllRegistrations()) + [registration]
      ensures registrationsKey == Json(AllRegistrations())
    {
      var all := AllRegistrations();
      all := all + [registration];
      SaveAllRegistrations(all);
    }

    method SaveAllAttendance(records: seq<AttendanceRecord>)
      modifies this`recordsKey
      ensures recordsKey == Json(records) && AllAttendance() == records
    {
      recordsKey := Json(records);
    }

    method SaveAttendance(record: AttendanceRecord)
      modifies this`recordsKey
      ensures AllAttendance() == old(AllAttendance()) + [record]
      ensures recordsKey == Json(AllAttendance())
    {
      var all := AllAttendance();
      all := all + [record];
      SaveAllAttendance(all);
    }

    /**
      Appends one `Registered` record for the current user (or a fresh id
      when nobody is logged in) without looking for an existing one, then
      adds the event to the session's registered events.
    */
    method RegisterForEvent(
      eventId: string, userName: string, userEmail: string, userPhone: string,
      specialRequests: Option<string>, emailNotifications: bool,
      freshRegistrationId: string, freshUserId: string, now: Timestamp)
      returns (registration: EventRegistration)
      modifies this, sessions
      ensures registration == NewRegistration(
        freshRegistrationId, ResolveUserId(old(CurrentUserId()), freshUserId), eventId,
        userName, userEmail, userPhone, specialRequests, emailNotifications, now)
      ensures registration.status == Registered && registration.eventId == eventId
      ensures old(CurrentUserId()).Some? ==> registration.userId == old(CurrentUserId()).value
      ensures AllRegistrations() == old(AllRegistrations()) + [registration]
      ensures |AllRegistrations()| == |old(AllRegistrations())| + 1
      ensures registrationsKey == Json(AllRegistrations())
      ensures recordsKey == old(recordsKey)
      ensures sessions.Observed() == Session.AddEvent(old(sessions.Observed()), eventId)
      ensures sessions.sessionKey ==
        if old(sessions.Observed()).Some? && eventId !in old(sessions.Observed()).value.registeredEvents
        then Json(sessions.Observed().value) else old(sessions.sessionKey)
      ensures sessions.preferences == old(sessions.preferences)
      ensures sessions.preferencesKey == old(sessions.preferencesKey)
    {
      var session := sessions.GetCurrentSession();
      var userId := ResolveUserId(UserIdOf(session), freshUserId);
      registration := NewRegistration(freshRegistrationId, userId, eventId, userName, userEmail, userPhone,
                                      specialRequests, emailNotifications, now);
      SaveRegistration(registration);
      sessions.AddRegisteredEvent(eventId);
    }

    /** The current user's registrations, or none when nobody is logged in. */
    method GetUserRegistrations() returns (rs: seq<EventRegistration>)
      modifies sessions
      ensures old(CurrentUserId()).None? ==> rs == []
      ensures old(CurrentUserId()).Some? ==> rs == Filter(AllRegistrations(), RegistrationOfUser(old(CurrentUserId()).value))
      ensures forall i :: 0 <= i < |rs| ==> rs[i] in AllRegistrations() && Some(rs[i].userId) == old(CurrentUserId())
      ensures sessions.Visible() == old(sessions.Visible())
    {
      var session := sessions.GetCurrentSession();
      if session.None? {
        return [];
      }
      var all := AllRegistrations();
      rs := Filter(all, RegistrationOfUser(session.value.userId));
    }

    /** Exactly the stored registrations for the event, in stored order. */
    method GetEventRegistrations(eventId: string) returns (rs: seq<EventRegistration>)
      ensures rs == Filter(AllRegistrations(), RegistrationOfEvent(eventId))
      ensures forall i :: 0 <= i < |rs| ==> rs[i] in AllRegistrations() && rs[i].eventId == eventId
      ensures forall i :: 0 <= i < |AllRegistrations()| && AllRegistrations()[i].eventId == eventId ==>
                AllRegistrations()[i] in rs
    {
      var all := AllRegistrations();
      rs := Filter(all, RegistrationOfEvent(eventId));
    }

    method GetRegistration(eventId: string, userId: string) returns (r: Option<EventRegistration>)
      ensures r == FindRegistration(AllRegistrations(), eventId, userId)
    {
      var all := AllRegistrations();
      r := FindRegistration(all, eventId, userId);
    }

    /** Whether the current user's FIRST registration for the event is not cancelled. */
    method IsUserRegisteredForEvent(eventId: string) returns (b: bool)
      modifies sessions
      ensures b == IsUserRegistered(AllRegistrations(), old(CurrentUserId()), eventId)
      ensures old(CurrentUserId()).None? ==> !b
      ensures sessions.Visible() == old(sessions.Visible())
    {
      var session := sessions.GetCurrentSession();
      if session.None? {
        return false;
      }
      var registration := GetRegistration(eventId, session.value.userId);
      b := registration.Some? && registration.value.status != Cancelled;
    }

    /**
      Soft cancel: the current user's first registration for the event gets
      status `Cancelled` and the list is written back; false, with no write,
      when nobody is logged in or there is no such registration.
    */
    method CancelRegistration(eventId: string) returns (ok: bool)
      modifies this, sessions
      ensures old(CurrentUserId()).None? ==> !ok
      ensures old(CurrentUserId()).Some? ==>
        (ok, AllRegistrations()) == CancelFirst(old(AllRegistrations()), eventId, old(CurrentUserId()).value)
      ensures !ok ==> registrationsKey == old(registrationsKey)
      ensures ok ==> registrationsKey == Json(AllRegistrations())
      ensures |AllRegistrations()| == |old(AllRegistrations())|
      ensures recordsKey == old(recordsKey)
      ensures sessions.Visible() == old(sessions.Visible())
    {
      var session := sessions.GetCurrentSession();
      if session.None? {
        return false;
      }
      var all := AllRegistrations();
      var i := FirstIndex(all, RegistrationFor(eventId, session.value.userId));
      if i.Some? {
        FirstIndexUnique(all, i.value, RegistrationFor(eventId, session.value.userId));
        all := all[i.value := all[i.value].(status := Cancelled)];
        SaveAllRegistrations(all);
        return true;
      }
      return false;
    }

    /**
      Appends an open `Present` record for the current user, pointing at the
      first registration for the event. Throws (here: a `Failure`) when nobody
      is logged in or there is no registration at all, and then appends nothing.
    */
    method CheckIn(eventId: string, notes: Option<string>, freshAttendanceId: string, now: Timestamp)
      returns (r: Result<AttendanceRecord, CheckInError>)
      modifies this, sessions
      ensures r == Ledger.CheckIn(AllRegistrations(), old(CurrentUserId()), eventId, notes, freshAttendanceId, now)
      ensures old(CurrentUserId()).None? ==> r == Failure(NotLoggedIn)
      ensures r.Success? ==> AllAttendance() == old(AllAttendance()) + [r.value] && recordsKey == Json(AllAttendance())
      ensures r.Failure? ==> recordsKey == old(recordsKey)
      ensures registrationsKey == old(registrationsKey)
      ensures sessions.Visible() == old(sessions.Visible())
    {
      var session := sessions.GetCurrentSession();
      if session.None? {
        return Failure(NotLoggedIn);
      }
      var registration := GetRegistration(eventId, session.value.userId);
      if registration.None? {
        return Failure(NotRegistered);
      }
      var attendance := AttendanceRecord(freshAttendanceId, registration.value.registrationId, eventId,
                                         session.value.userId, now, None, Present, notes);
      SaveAttendance(attendance);
      r := Success(attendance);
    }

    /**
      Closes the current user's first open record for the event and writes the
      list back; false, with no write, when nobody is logged in or no record is open.
    */
    method CheckOut(eventId: string, notes: Option<string>, now: Timestamp) returns (ok: bool)
      modifies this, sessions
      ensures old(CurrentUserId()).None? ==> !ok
      ensures old(CurrentUserId()).Some? ==>
        (ok, AllAttendance()) == CheckOutFirst(old(AllAttendance()), eventId, old(CurrentUserId()).value, now, notes)
      ensures !ok ==> recordsKey == old(recordsKey)
      ensures ok ==> recordsKey == Json(AllAttendance())
      ensures |AllAttendance()| == |old(AllAttendance())|
      ensures registrationsKey == old(registrationsKey)
      ensures sessions.Visible() == old(sessions.Visible())
    {
      var session := sessions.GetCurrentSession();
      if session.None? {
        return false;
      }
      var all := AllAttendance();
      var i := FirstIndex(all, OpenAttendanceFor(eventId, session.value.userId));
      if i.Some? {
        FirstIndexUnique(all, i.value, OpenAttendanceFor(eventId, session.value.userId));
        all := all[i.value := Close(all[i.value], now, notes)];
        SaveAllAttendance(all);
        return true;
      }
      return false;
    }

    /** Exactly the stored attendance records for the event, in stored order. */
    method GetEventAttendance(eventId: string) returns (records: seq<AttendanceRecord>)
      ensures records == Filter(AllAttendance(), AttendanceOfEvent(eventId))
      ensures forall i :: 0 <= i < |records| ==> records[i] in AllAttendance() && records[i].eventId == eventId
      ensures forall i :: 0 <= i < |AllAttendance()| && AllAttendance()[i].eventId == eventId ==>
                AllAttendance()[i] in records
    {
      var all := AllAttendance();
      records := Filter(all, AttendanceOfEvent(eventId));
    }

    /** The current user's first record for the event, open or closed; none without a session. */
    method GetUserAttendance(eventId: string) returns (r: Option<AttendanceRecord>)
      modifies sessions
      ensures r == FindAttendance(AllAttendance(), old(CurrentUserId()), eventId)
      ensures old(CurrentUserId()).None? ==> r.None?
      ensures sessions.Visible() == old(sessions.Visible())
    {
      var session := sessions.GetCurrentSession();
      if session.None? {
        return None;
      }
      var all := AllAttendance();
      var i := FirstIndex(all, AttendanceFor(eventId, session.value.userId));
      r := if i.Some? then Some(all[i.value]) else None;
    }

    method GetEventRegistrationCount(eventId: string) returns (n: nat)
      ensures n == RegistrationCount(AllRegistrations(), eventId)
      ensures n == Count(AllRegistrations(), LiveRegistrationOfEvent(eventId))
    {
      var registrations := GetEventRegistrations(eventId);
      n := Count(registrations, NotCancelled);
    }

    method GetEventAttendanceCount(eventId: string) returns (n: nat)
      ensures n == AttendanceCount(AllAttendance(), eventId)
      ensures n == Count(AllAttendance(), PresentAtEvent(eventId))
    {
      var records := GetEventAttendance(eventId);
      n := Count(records, IsPresent);
    }

    method GetEventAttendanceRate(eventId: string) returns (rate: real)
      ensures rate == AttendanceRate(AllRegistrations(), AllAttendance(), eventId)
      ensures RegistrationCount(AllRegistrations(), eventId) == 0 ==> rate == 0.0
    {
      var registrationCount := GetEventRegistrationCount(eventId);
      var attendanceCount := GetEventAttendanceCount(eventId);
      rate := if registrationCount > 0 then (attendanceCount as real) / (registrationCount as real) * 100.0 else 0.0;
    }
  }
}
