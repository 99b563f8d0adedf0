/**
  The in-memory user session state: an optional current session and optional
  preferences, each cached in a field and backed by one storage key.
*/
module Session {
  import opened Wrappers
  import opened Storage
  import opened Time

  datatype UserSession = UserSession(
    userId: string,
    name: string,
    email: string,
    phoneNumber: string,
    sessionStart: Timestamp,
    lastActivity: Timestamp,
    isLoggedIn: bool,
    registeredEvents: seq<string>)

  datatype UserPreferences = UserPreferences(theme: string, emailNotifications: bool, language: string)

  /** The preferences a freshly constructed `UserPreferences` object holds. */
  const DefaultPreferences := UserPreferences("light", true, "en")

  predicate NoDuplicates(xs: seq<string>)
  {
    forall i, j :: 0 <= i < j < |xs| ==> xs[i] != xs[j]
  }

  /** The session a login installs: logged in, carrying the given identity, no events yet. */
  function NewSession(userId: string, name: string, email: string, phoneNumber: string, now: Timestamp): (s: UserSession)
    ensures s.isLoggedIn && s.name == name && s.email == email && s.phoneNumber == phoneNumber
    ensures s.userId == userId && s.registeredEvents == []
  {
    UserSession(userId, name, email, phoneNumber, now, now, true, [])
  }

  /** `session?.IsLoggedIn ?? false` */
  function LoggedIn(session: Option<UserSession>): (b: bool)
    ensures b <==> session.Some? && session.value.isLoggedIn
  {
    match session
    case Some(s) => s.isLoggedIn
    case None => false
  }

  /** `session?.Name ?? "Guest"` */
  function NameOf(session: Option<UserSession>): (name: string)
    ensures session.None? ==> name == "Guest"
    ensures session.Some? ==> name == session.value.name
  {
    match session
    case Some(s) => s.name
    case None => "Guest"
  }

  /** `session?.Email ?? ""` */
  function EmailOf(session: Option<UserSession>): (email: string)
    ensures session.None? ==> email == ""
    ensures session.Some? ==> email == session.value.email
  {
    match session
    case Some(s) => s.email
    case None => ""
  }

  /** `session?.RegisteredEvents ?? new List<string>()` */
  function EventsOf(session: Option<UserSession>): (events: seq<string>)
    ensures session.None? ==> events == []
    ensures session.Some? ==> events == session.value.registeredEvents
  {
    match session
    case Some(s) => s.registeredEvents
    case None => []
  }

  /** `session?.RegisteredEvents.Contains(eventId) ?? false` */
  function HasRegistered(session: Option<UserSession>, eventId: string): (b: bool)
    ensures b <==> eventId in EventsOf(session)
    ensures session.None? ==> !b
  {
    match session
    case Some(s) => eventId in s.registeredEvents
    case None => false
  }

  /**
    The session after `AddRegisteredEventAsync(eventId)`: the event is added
    only when it is not listed already, so the list never gains a duplicate.
  */
  function WithEvent(s: UserSession, eventId: string): (r: UserSession)
    ensures eventId in r.registeredEvents
    ensures forall x :: x in r.registeredEvents <==> x in s.registeredEvents || x == eventId
    ensures NoDuplicates(s.registeredEvents) ==> NoDuplicates(r.registeredEvents)
    ensures eventId in s.registeredEvents ==> r == s
    ensures s.registeredEvents <= r.registeredEvents
    ensures r.(registeredEvents := s.registeredEvents) == s
  {
    if eventId in s.registeredEvents then s
    else s.(registeredEvents := s.registeredEvents + [eventId])
  }

  /** `AddRegisteredEventAsync` on the session as a whole: with no session nothing changes. */
  function AddEvent(session: Option<UserSession>, eventId: string): (r: Option<UserSession>)
    ensures r.Some? <==> session.Some?
    ensures session.Some? ==> r.value == WithEvent(session.value, eventId)
    ensures session.None? ==> !HasRegistered(r, eventId)
    ensures session.Some? ==> HasRegistered(r, eventId)
  {
    match session
    case Some(s) => Some(WithEvent(s, eventId))
    case None => None
  }

  /**
    What `GetCurrentSessionAsync` yields: the cached session when one is held,
    otherwise whatever the stored text deserializes to (nothing on a failure).
  */
  function ResolveSession(cached: Option<UserSession>, stored: Stored<UserSession>): (r: Option<UserSession>)
    ensures cached.Some? ==> r == cached
    ensures cached.None? ==> r == LoadValue(stored)
    ensures cached.None? && !stored.Json? ==> r.None?
  {
    if cached.Some? then cached else LoadValue(stored)
  }

  /**
    What `GetUserPreferencesAsync` yields: the cached preferences, else the
    stored ones, else the defaults.
  */
  function ResolvePreferences(cached: Option<UserPreferences>, stored: Stored<UserPreferences>): (p: UserPreferences)
    ensures cached.Some? ==> p == cached.value
    ensures cached.None? && stored.Json? ==> p == stored.value
    ensures cached.None? && !stored.Json? ==> p == DefaultPreferences
  {
    match cached
    case Some(c) => c
    case None =>
      match LoadValue(stored)
      case Some(v) => v
      case None => DefaultPreferences
  }

  /** Logging in and then asking yields a logged-in session with the given name. */
  lemma LoginIsObserved(userId: string, name: string, email: string, phoneNumber: string, now: Timestamp, stored: Stored<UserSession>)
    ensures var s := ResolveSession(Some(NewSession(userId, name, email, phoneNumber, now)), stored);
      LoggedIn(s) && NameOf(s) == name && EmailOf(s) == email && EventsOf(s) == []
  {
  }

  /** After logout (no cached session, key removed) every accessor gives its fallback. */
  lemma LogoutIsObserved()
    ensures var s := ResolveSession(None, Missing);
      !LoggedIn(s) && NameOf(s) == "Guest" && EmailOf(s) == "" && EventsOf(s) == []
  {
  }

  /** Adding events one after another never creates a duplicate in `RegisteredEvents`. */
  lemma {:induction false} AddEventsKeepNoDuplicates(session: Option<UserSession>, eventIds: seq<string>)
    requires session.Some? ==> NoDuplicates(session.value.registeredEvents)
    ensures var r := AddAll(session, eventIds);
      (r.Some? <==> session.Some?) &&
      (r.Some? ==> NoDuplicates(r.value.registeredEvents)) &&
      forall e :: e in eventIds && session.Some? ==> HasRegistered(r, e)
  {
    if eventIds != [] {
      var last := eventIds[|eventIds| - 1];
      var init := eventIds[..|eventIds| - 1];
      assert eventIds == init + [last];
      AddEventsKeepNoDuplicates(session, init);
      var mid := AddAll(session, init);
      assert AddAll(session, eventIds) == AddEvent(mid, last);
      if session.Some? {
        forall e | e in eventIds ensures HasRegistered(AddEvent(mid, last), e) {
          if e != last {
            assert e in init;
            assert e in mid.value.registeredEvents;
          }
        }
      }
    }
  }

  /** A sequence of `AddRegisteredEventAsync` calls, in order. */
  function AddAll(session: Option<UserSession>, eventIds: seq<string>): (r: Option<UserSession>)
    ensures r.Some? <==> session.Some?
  {
    if eventIds == [] then session
    else AddEvent(AddAll(session, eventIds[..|eventIds| - 1]), eventIds[|eventIds| - 1])
  }

  /**
    The session service. `current` and `preferences` are the cached fields
    `_currentSession` and `_currentPreferences`; `sessionKey` and
    `preferencesKey` are what the two storage keys hold.
  */
  class UserSessionService {
    var current: Option<UserSession>
    var preferences: Option<UserPreferences>
    var sessionKey: Stored<UserSession>
    var preferencesKey: Stored<UserPreferences>

    /** The session every caller observes, whether or not it is cached yet. */
    function Observed(): Option<UserSession>
      reads this
    {
      ResolveSession(current, sessionKey)
    }

    /** Everything about the service that callers can observe or that storage keeps. */
    function Visible(): (Option<UserSession>, Stored<UserSession>, Option<UserPreferences>, Stored<UserPreferences>)
      reads this
    {
      (Observed(), sessionKey, preferences, preferencesKey)
    }

    /** A new service over existing storage: nothing is cached yet. */
    constructor (sessionKey: Stored<UserSession>, preferencesKey: Stored<UserPreferences>)
      ensures current == None && preferences == None
      ensures this.sessionKey == sessionKey && this.preferencesKey == preferencesKey
      ensures Observed() == LoadValue(sessionKey)
    {
      current := None;
      preferences := None;
      this.sessionKey := sessionKey;
      this.preferencesKey := preferencesKey;
    }

    /**
      Returns the cached session untouched when there is one; otherwise loads
      the stored one, caches it and writes it back; a failed load gives none.
      Either way what callers observe does not change.
    */
    method GetCurrentSession() returns (session: Option<UserSession>)
      modifies this
      ensures session == old(Observed())
      ensures old(current).Some? ==> session == old(current)
      ensures old(current).None? && !old(sessionKey).Json? ==> session.None?
      ensures current == session && Observed() == old(Observed())
      ensures sessionKey == old(sessionKey)
      ensures preferences == old(preferences) && preferencesKey == old(preferencesKey)
    {
      if current.Some? {
        return current;
      }
      if sessionKey.Json? {
        current := Some(sessionKey.value);
        SaveSession(current.value);
      } else {
        current := None;
      }
      session := current;
    }

    method SaveSession(session: UserSession)
      modifies this`sessionKey
      ensures sessionKey == Json(session)
    {
      sessionKey := Json(session);
    }

    /** Installs and stores a new logged-in session; always succeeds. */
    method LoginUser(name: string, email: string, phoneNumber: string, freshUserId: string, now: Timestamp)
      returns (ok: bool)
      modifies this
      ensures ok
      ensures current == Some(NewSession(freshUserId, name, email, phoneNumber, now))
      ensures sessionKey == Json(current.value)
      ensures Observed() == current
      ensures LoggedIn(Observed()) && NameOf(Observed()) == name && EmailOf(Observed()) == email
      ensures preferences == old(preferences) && preferencesKey == old(preferencesKey)
    {
      var session := NewSession(freshUserId, name, email, phoneNumber, now);
      SaveSession(session);
      current := Some(session);
      return true;
    }

    /** Clears the cached session and removes the stored one. */
    method LogoutUser()
      modifies this
      ensures current == None && sessionKey == Missing
      ensures Observed() == None
      ensures !LoggedIn(Observed()) && NameOf(Observed()) == "Guest" && EmailOf(Observed()) == ""
      ensures preferences == old(preferences) && preferencesKey == old(preferencesKey)
    {
      current := None;
      sessionKey := Missing;
    }

    /** Stores the given session and makes it the current one. */
    method UpdateSession(session: UserSession)
      modifies this
      ensures current == Some(session) && sessionKey == Json(session)
      ensures Observed() == Some(session)
      ensures preferences == old(preferences) && preferencesKey == old(preferencesKey)
    {
      SaveSession(session);
      current := Some(session);
    }

    /** Cached preferences, else the stored ones, else the defaults; the result is cached. */
    method GetUserPreferences() returns (prefs: UserPreferences)
      modifies this
      ensures prefs == ResolvePreferences(old(preferences), old(preferencesKey))
      ensures old(preferences).Some? ==> prefs == old(preferences).value
      ensures old(preferences).None? && !old(preferencesKey).Json? ==> prefs == DefaultPreferences
      ensures preferences == Some(prefs) && preferencesKey == old(preferencesKey)
      ensures current == old(current) && sessionKey == old(sessionKey)
    {
      if preferences.Some? {
        return preferences.value;
      }
      if preferencesKey.Json? {
        preferences := Some(preferencesKey.value);
      }
      if preferences.None? {
        preferences := Some(DefaultPreferences);
      }
      prefs := preferences.value;
    }

    method SaveUserPreferences(prefs: UserPreferences)
      modifies this
      ensures preferences == Some(prefs) && preferencesKey == Json(prefs)
      ensures current == old(current) && sessionKey == old(sessionKey)
    {
      preferences := Some(prefs);
      preferencesKey := Json(prefs);
    }

    method IsUserLoggedIn() returns (b: bool)
      modifies this
      ensures b == LoggedIn(old(Observed()))
      ensures b <==> old(Observed()).Some? && old(Observed()).value.isLoggedIn
      ensures Observed() == old(Observed()) && sessionKey == old(sessionKey)
      ensures preferences == old(preferences) && preferencesKey == old(preferencesKey)
    {
      var session := GetCurrentSession();
      b := LoggedIn(session);
    }

    method GetUserName() returns (name: string)
      modifies this
      ensures name == NameOf(old(Observed()))
      ensures Observed() == old(Observed()) && sessionKey == old(sessionKey)
      ensures preferences == old(preferences) && preferencesKey == old(preferencesKey)
    {
      var session := GetCurrentSession();
      name := NameOf(session);
    }

    method GetUserEmail() returns (email: string)
      modifies this
      ensures email == EmailOf(old(Observed()))
      ensures Observed() == old(Observed()) && sessionKey == old(sessionKey)
      ensures preferences == old(preferences) && preferencesKey == old(preferencesKey)
    {
      var session := GetCurrentSession();
      email := EmailOf(session);
    }

    /**
      Adds `eventId` to the current session's registered events when there is
      a session and the event is not yet listed, and stores the session.
    */
    method AddRegisteredEvent(eventId: string)
      modifies this
      ensures Observed() == AddEvent(old(Observed()), eventId)
      ensures old(Observed()).None? ==> Observed() == None && sessionKey == old(sessionKey)
      ensures old(Observed()).Some? ==> HasRegistered(Observed(), eventId)
      ensures sessionKey ==
        if old(Observed()).Some? && eventId !in old(Observed()).value.registeredEvents
        then Json(Observed().value) else old(sessionKey)
      ensures old(Observed()).Some? && NoDuplicates(old(Observed()).value.registeredEvents) ==>
                NoDuplicates(Observed().value.registeredEvents)
      ensures preferences == old(preferences) && preferencesKey == old(preferencesKey)
    {
      var session := GetCurrentSession();
      if session.Some? && eventId !in session.value.registeredEvents {
        var s := session.value.(registeredEvents := session.value.registeredEvents + [eventId]);
        UpdateSession(s);
      }
    }

    method IsRegisteredForEvent(eventId: string) returns (b: bool)
      modifies this
      ensures b == HasRegistered(old(Observed()), eventId)
      ensures old(Observed()).None? ==> !b
      ensures Observed() == old(Observed()) && sessionKey == old(sessionKey)
      ensures preferences == old(preferences) && preferencesKey == old(preferencesKey)
    {
      var session := GetCurrentSession();
      b := HasRegistered(session, eventId);
    }

    method GetRegisteredEvents() returns (events: seq<string>)
      modifies this
      ensures events == EventsOf(old(Observed()))
      ensures Observed() == old(Observed()) && sessionKey == old(sessionKey)
      ensures preferences == old(preferences) && preferencesKey == old(preferencesKey)
    {
      var session := GetCurrentSession();
      events := EventsOf(session);
    }
  }

  /** A client of the service: log in, register an event twice, log out. */
  method SessionLifecycle(svc: UserSessionService, eventId: string, freshUserId: string, now: Timestamp)
    modifies svc
    ensures svc.Observed() == None && svc.sessionKey == Missing
  {
    var ok := svc.LoginUser("Ada", "ada@example.org", "", freshUserId, now);
    var isIn := svc.IsUserLoggedIn();
    assert isIn;
    svc.AddRegisteredEvent(eventId);
    svc.AddRegisteredEvent(eventId);
    var events := svc.GetRegisteredEvents();
    assert events == [eventId];
    var registered := svc.IsRegisteredForEvent(eventId);
    assert registered;
    svc.LogoutUser();
    var name := svc.GetUserName();
    assert name == "Guest";
    registered := svc.IsRegisteredForEvent(eventId);
    assert !registered;
  }
}
