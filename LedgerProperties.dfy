/**
  Properties of the ledger operations taken together: how registering,
  cancelling, checking in and checking out change what the queries and the
  statistics report afterwards.
*/
module LedgerProperties {
  import opened Wrappers
  import opened Seqs
  import opened Ledger
  import opened Time

  /** Some registration in `rs` is for the pair. */
  predicate HasRegistrationFor(rs: seq<EventRegistration>, eventId: string, userId: string)
  {
    exists i :: 0 <= i < |rs| && RegistrationFor(eventId, userId)(rs[i])
  }

  /**
    Appending a registration changes `IsUserRegistered` for a pair only when
    the pair had no registration before; then the new record alone decides.
  */
  lemma IsUserRegisteredAfterAppend(rs: seq<EventRegistration>, reg: EventRegistration, eventId: string, userId: string)
    ensures IsUserRegistered(rs + [reg], Some(userId), eventId) ==
      if HasRegistrationFor(rs, eventId, userId) then IsUserRegistered(rs, Some(userId), eventId)
      else reg.eventId == eventId && reg.userId == userId && reg.status != Cancelled
  {
    var p := RegistrationFor(eventId, userId);
    FirstIndexAppend(rs, reg, p);
    var t := rs + [reg];
    match FirstIndex(rs, p)
    case Some(i) =>
      assert t[i] == rs[i];
      FirstIndexUnique(t, i, p);
    case None =>
      if p(reg) {
        FirstIndexUnique(t, |rs|, p);
      }
  }

  /** Registering a pair that has no registration yet makes it registered. */
  lemma RegisterThenRegistered(
    rs: seq<EventRegistration>, registrationId: string, userId: string, eventId: string,
    userName: string, userEmail: string, userPhone: string,
    specialRequests: Option<string>, emailNotifications: bool, now: Timestamp)
    requires !HasRegistrationFor(rs, eventId, userId)
    ensures IsUserRegistered(
      rs + [NewRegistration(registrationId, userId, eventId, userName, userEmail, userPhone,
                            specialRequests, emailNotifications, now)],
      Some(userId), eventId)
  {
    var reg := NewRegistration(registrationId, userId, eventId, userName, userEmail, userPhone,
                               specialRequests, emailNotifications, now);
    IsUserRegisteredAfterAppend(rs, reg, eventId, userId);
  }

  /**
    Registering again after a cancellation leaves the user unregistered in
    the service's eyes: the new live record sits behind the cancelled one.
  */
  lemma ReRegisterAfterCancelStaysUnregistered(rs: seq<EventRegistration>, reg: EventRegistration)
    requires exists i :: IsFirst(rs, i, RegistrationFor(reg.eventId, reg.userId)) && rs[i].status == Cancelled
    ensures !IsUserRegistered(rs + [reg], Some(reg.userId), reg.eventId)
  {
    var i :| IsFirst(rs, i, RegistrationFor(reg.eventId, reg.userId)) && rs[i].status == Cancelled;
    FirstIndexUnique(rs, i, RegistrationFor(reg.eventId, reg.userId));
    IsUserRegisteredAfterAppend(rs, reg, reg.eventId, reg.userId);
  }

  /**
    After a cancel the user is no longer registered, the pair keeps exactly as
    many records as before (soft delete), and the event's list still shows the
    cancelled record.
  */
  lemma CancelThenNotRegistered(rs: seq<EventRegistration>, eventId: string, userId: string)
    ensures !IsUserRegistered(CancelFirst(rs, eventId, userId).1, Some(userId), eventId)
    ensures Count(CancelFirst(rs, eventId, userId).1, RegistrationFor(eventId, userId)) ==
            Count(rs, RegistrationFor(eventId, userId))
    ensures CancelFirst(rs, eventId, userId).0 ==>
      exists r :: r in Filter(CancelFirst(rs, eventId, userId).1, RegistrationOfEvent(eventId)) &&
        r.userId == userId && r.status == Cancelled
  {
    var p := RegistrationFor(eventId, userId);
    var (ok, after) := CancelFirst(rs, eventId, userId);
    match FirstIndex(rs, p)
    case None =>
      assert after == rs;
    case Some(i) =>
      var cancelled := rs[i].(status := Cancelled);
      assert after == rs[i := cancelled];
      FirstIndexUpdate(rs, i, cancelled, p);
      CountUpdate(rs, i, cancelled, p);
      assert after[i] == cancelled;
      assert RegistrationOfEvent(eventId)(after[i]);
  }

  /**
    Check-in looks only for SOME registration: a cancelled first registration
    still admits the user, and the record points at that cancelled registration,
    even though the same user is reported as not registered.
  */
  lemma CheckInIgnoresCancellation(
    rs: seq<EventRegistration>, i: int, eventId: string, userId: string,
    notes: Option<string>, attendanceId: string, now: Timestamp)
    requires IsFirst(rs, i, RegistrationFor(eventId, userId)) && rs[i].status == Cancelled
    ensures CheckIn(rs, Some(userId), eventId, notes, attendanceId, now).Success?
    ensures CheckIn(rs, Some(userId), eventId, notes, attendanceId, now).value.registrationId == rs[i].registrationId
    ensures !IsUserRegistered(rs, Some(userId), eventId)
  {
    FirstIndexUnique(rs, i, RegistrationFor(eventId, userId));
  }

  /**
    A successful check-in always adds an open record for the pair, whatever
    open records already exist: duplicate open check-ins are not prevented.
  */
  lemma CheckInAddsOpenRecord(
    rs: seq<EventRegistration>, records: seq<AttendanceRecord>, eventId: string, userId: string,
    notes: Option<string>, attendanceId: string, now: Timestamp)
    requires CheckIn(rs, Some(userId), eventId, notes, attendanceId, now).Success?
    ensures var record := CheckIn(rs, Some(userId), eventId, notes, attendanceId, now).value;
      Count(records + [record], OpenAttendanceFor(eventId, userId)) ==
      Count(records, OpenAttendanceFor(eventId, userId)) + 1
  {
    var record := CheckIn(rs, Some(userId), eventId, notes, attendanceId, now).value;
    CountAppend(records, [record], OpenAttendanceFor(eventId, userId));
  }

  /** A checkout closes exactly one open record of the pair, or finds none open. */
  lemma CheckOutClosesOne(
    records: seq<AttendanceRecord>, eventId: string, userId: string, now: Timestamp, notes: Option<string>)
    ensures var (ok, after) := CheckOutFirst(records, eventId, userId, now, notes);
      (ok ==> Count(after, OpenAttendanceFor(eventId, userId)) == Count(records, OpenAttendanceFor(eventId, userId)) - 1) &&
      (!ok ==> Count(records, OpenAttendanceFor(eventId, userId)) == 0)
  {
    var p := OpenAttendanceFor(eventId, userId);
    match FirstIndex(records, p)
    case None =>
    case Some(i) =>
      var closed := Close(records[i], now, notes);
      assert CheckOutFirst(records, eventId, userId, now, notes).1 == records[i := closed];
      CountUpdate(records, i, closed, p);
  }

  /** With a single open record, a second checkout right after the first returns false. */
  lemma SecondCheckOutFails(
    records: seq<AttendanceRecord>, eventId: string, userId: string,
    now1: Timestamp, notes1: Option<string>, now2: Timestamp, notes2: Option<string>)
    requires Count(records, OpenAttendanceFor(eventId, userId)) == 1
    ensures CheckOutFirst(records, eventId, userId, now1, notes1).0
    ensures !CheckOutFirst(CheckOutFirst(records, eventId, userId, now1, notes1).1, eventId, userId, now2, notes2).0
  {
    CheckOutClosesOne(records, eventId, userId, now1, notes1);
    var after := CheckOutFirst(records, eventId, userId, now1, notes1).1;
    CheckOutClosesOne(after, eventId, userId, now2, notes2);
  }

  /** The event's registration list gains the new record at its end, and only when it is for that event. */
  lemma EventRegistrationsAfterRegister(rs: seq<EventRegistration>, reg: EventRegistration, eventId: string)
    ensures Filter(rs + [reg], RegistrationOfEvent(eventId)) ==
      Filter(rs, RegistrationOfEvent(eventId)) + (if reg.eventId == eventId then [reg] else [])
  {
    FilterAppend(rs, [reg], RegistrationOfEvent(eventId));
    assert [reg][1..] == [];
  }

  /** A new registration adds one to its own event's count and nothing to any other. */
  lemma RegistrationCountAfterRegister(rs: seq<EventRegistration>, reg: EventRegistration, eventId: string)
    requires reg.status == Registered
    ensures RegistrationCount(rs + [reg], eventId) ==
      RegistrationCount(rs, eventId) + (if reg.eventId == eventId then 1 else 0)
  {
    CountAppend(rs, [reg], LiveRegistrationOfEvent(eventId));
    assert [reg][1..] == [];
  }

  /**
    A cancel lowers the event's count by one exactly when it hit the user's
    live first registration for that event; cancelling an already-cancelled
    first registration still returns true but changes no count.
  */
  lemma RegistrationCountAfterCancel(rs: seq<EventRegistration>, cancelEventId: string, userId: string, eventId: string)
    ensures RegistrationCount(CancelFirst(rs, cancelEventId, userId).1, eventId) ==
      RegistrationCount(rs, eventId) -
      (if cancelEventId == eventId && IsUserRegistered(rs, Some(userId), cancelEventId) then 1 else 0)
  {
    var p := RegistrationFor(cancelEventId, userId);
    match FirstIndex(rs, p)
    case None =>
    case Some(i) =>
      var cancelled := rs[i].(status := Cancelled);
      assert CancelFirst(rs, cancelEventId, userId).1 == rs[i := cancelled];
      CountUpdate(rs, i, cancelled, LiveRegistrationOfEvent(eventId));
  }

  /** A successful check-in adds one `Present` record to its event's attendance count. */
  lemma AttendanceCountAfterCheckIn(
    rs: seq<EventRegistration>, records: seq<AttendanceRecord>, sessionUserId: Option<string>,
    checkInEventId: string, notes: Option<string>, attendanceId: string, now: Timestamp, eventId: string)
    requires CheckIn(rs, sessionUserId, checkInEventId, notes, attendanceId, now).Success?
    ensures var record := CheckIn(rs, sessionUserId, checkInEventId, notes, attendanceId, now).value;
      AttendanceCount(records + [record], eventId) ==
      AttendanceCount(records, eventId) + (if checkInEventId == eventId then 1 else 0)
  {
    var record := CheckIn(rs, sessionUserId, checkInEventId, notes, attendanceId, now).value;
    CountAppend(records, [record], PresentAtEvent(eventId));
    assert [record][1..] == [];
  }

  /** Checkout leaves the status alone, so no attendance count changes. */
  lemma AttendanceCountAfterCheckOut(
    records: seq<AttendanceRecord>, checkOutEventId: string, userId: string,
    now: Timestamp, notes: Option<string>, eventId: string)
    ensures AttendanceCount(CheckOutFirst(records, checkOutEventId, userId, now, notes).1, eventId) ==
      AttendanceCount(records, eventId)
  {
    match FirstIndex(records, OpenAttendanceFor(checkOutEventId, userId))
    case None =>
    case Some(i) =>
      var closed := Close(records[i], now, notes);
      assert CheckOutFirst(records, checkOutEventId, userId, now, notes).1 == records[i := closed];
      CountUpdate(records, i, closed, PresentAtEvent(eventId));
  }

  /** Proof step for the two scenarios below: the rate formula on their counts. */
  lemma RateValues()
    ensures Rate(1, 2) == 50.0 && Rate(2, 1) == 200.0
  {
    assert Rate(1, 2) * 2.0 == 100.0;
    assert Rate(2, 1) * 1.0 == 200.0;
  }

  /** Two users register for an event and one of them checks in: the rate is 50. */
  lemma HalfAttendedEvent(
    eventId: string, user1: string, user2: string, id1: string, id2: string,
    attendanceId: string, now: Timestamp)
    requires user1 != user2
    ensures var r1 := NewRegistration(id1, user1, eventId, "", "", "", None, true, now);
      var r2 := NewRegistration(id2, user2, eventId, "", "", "", None, true, now);
      var checkIn := CheckIn([r1, r2], Some(user1), eventId, None, attendanceId, now);
      checkIn.Success? && AttendanceRate([r1, r2], [checkIn.value], eventId) == 50.0
  {
    var r1 := NewRegistration(id1, user1, eventId, "", "", "", None, true, now);
    var r2 := NewRegistration(id2, user2, eventId, "", "", "", None, true, now);
    var rs := [r1, r2];
    RegistrationCountAfterRegister([], r1, eventId);
    assert [] + [r1] == [r1];
    RegistrationCountAfterRegister([r1], r2, eventId);
    assert [r1] + [r2] == rs;
    assert RegistrationCount(rs, eventId) == 2;
    assert IsFirst(rs, 0, RegistrationFor(eventId, user1));
    var checkIn := CheckIn(rs, Some(user1), eventId, None, attendanceId, now);
    assert checkIn.Success?;
    AttendanceCountAfterCheckIn(rs, [], Some(user1), eventId, None, attendanceId, now, eventId);
    assert [] + [checkIn.value] == [checkIn.value];
    assert AttendanceCount([checkIn.value], eventId) == 1;
    RateValues();
  }

  /**
    Because repeated check-ins are not prevented, the rate is not bounded by
    100: one registration with two check-ins gives 200.
  */
  lemma RateAboveHundred(eventId: string, userId: string, id: string, a1: string, a2: string, now: Timestamp)
    ensures var r := NewRegistration(id, userId, eventId, "", "", "", None, true, now);
      var c1 := CheckIn([r], Some(userId), eventId, None, a1, now);
      var c2 := CheckIn([r], Some(userId), eventId, None, a2, now);
      c1.Success? && c2.Success? && AttendanceRate([r], [c1.value, c2.value], eventId) == 200.0
  {
    var r := NewRegistration(id, userId, eventId, "", "", "", None, true, now);
    RegistrationCountAfterRegister([], r, eventId);
    assert [] + [r] == [r];
    assert RegistrationCount([r], eventId) == 1;
    assert IsFirst([r], 0, RegistrationFor(eventId, userId));
    var c1 := CheckIn([r], Some(userId), eventId, None, a1, now);
    var c2 := CheckIn([r], Some(userId), eventId, None, a2, now);
    assert c1.Success? && c2.Success?;
    AttendanceCountAfterCheckIn([r], [], Some(userId), eventId, None, a1, now, eventId);
    assert [] + [c1.value] == [c1.value];
    AttendanceCountAfterCheckIn([r], [c1.value], Some(userId), eventId, None, a2, now, eventId);
    assert [c1.value] + [c2.value] == [c1.value, c2.value];
    assert AttendanceCount([c1.value, c2.value], eventId) == 2;
    RateValues();
  }
}
