/**
 * The request-scoped session of app/utils/Session.php.
 *
 * PHP keeps the session in two pieces of ambient state: the static flag
 * `$started` and the `$_SESSION` attribute map, plus the session cookie's
 * identifier. Here they are the fields of a `Session` object. Each method
 * is specified by a pure transition function on `SessionState`, and the
 * properties the session promises are lemmas about those functions.
 *
 * Identifiers are abstract numbers handed out by a counter (`nextId`),
 * so an identifier that is opened is one never used before. The clock is
 * the `now` parameter (seconds); every accessor takes it because each one
 * calls `start()` first, which may expire the session.
 */
module Sessions {
  import opened Wrappers
  import opened Config
  import Hex

  /** The throttle array ['count' => …, 'first_attempt' => …] of Auth.php. */
  datatype AttemptRecord = AttemptRecord(count: int, firstAttempt: int)

  /** A session attribute: PHP null, an int, a string, or a throttle record. */
  datatype Value = Null | Int(i: int) | Str(s: string) | Record(rec: AttemptRecord)

  const LAST_ACTIVITY: string := "last_activity"
  const USER_ID: string := "user_id"
  const USERNAME: string := "username"
  const LOGIN_TIME: string := "login_time"

  function FlashKey(kind: string): string { "flash_" + kind }

  /** The whole session as a value: the `$started` flag, `$_SESSION`, the cookie's identifier. */
  datatype SessionState = SessionState(started: bool, attrs: map<string, Value>, id: Option<nat>, nextId: nat)

  /** An active session has an identifier, and every identifier was issued by the counter. */
  predicate WellFormed(st: SessionState) {
    (st.started ==> st.id.Some?) && (st.id.Some? ==> st.id.value < st.nextId)
  }

  /** PHP `isset($_SESSION[$key])`: present and not null. */
  predicate IsSet(attrs: map<string, Value>, key: string) {
    key in attrs && attrs[key] != Null
  }

  /** PHP `$_SESSION[$key] ?? $default`. */
  function Lookup(attrs: map<string, Value>, key: string, default: Value): Value {
    if IsSet(attrs, key) then attrs[key] else default
  }

  /** The idle-expiry test of `start()`: a stored `last_activity` more than SESSION_LIFETIME ago. */
  predicate Expired(attrs: map<string, Value>, now: int) {
    LAST_ACTIVITY in attrs && attrs[LAST_ACTIVITY].Int? && now - attrs[LAST_ACTIVITY].i > SESSION_LIFETIME
  }

  /** `session_start()`: the session becomes active; without an identifier a fresh one is opened. */
  function Opened(st: SessionState): SessionState {
    if st.id.Some? then st.(started := true)
    else st.(started := true, id := Some(st.nextId), nextId := st.nextId + 1)
  }

  /** `destroy()`: drops every attribute and the identifier; a no-op on an inactive session. */
  function AfterDestroy(st: SessionState): (r: SessionState)
    ensures WellFormed(st) ==> WellFormed(r)
    ensures st.started ==> !r.started && r.attrs == map[] && r.id == None
    ensures !st.started ==> r == st
  {
    if st.started then st.(started := false, attrs := map[], id := None) else st
  }

  /** `start()`: resume or open the session, replace it if idle too long, stamp `last_activity`. */
  function AfterStart(st: SessionState, now: int): (r: SessionState)
    ensures r.started
    ensures st.started ==> r == st
    ensures !st.started ==> LAST_ACTIVITY in r.attrs && r.attrs[LAST_ACTIVITY] == Int(now)
    ensures !st.started && Expired(st.attrs, now) ==>
              r.attrs == map[LAST_ACTIVITY := Int(now)] && r.id.Some? && r.id.value >= st.nextId
    ensures !st.started && !Expired(st.attrs, now) ==>
              r.attrs == st.attrs[LAST_ACTIVITY := Int(now)] && r.id == Opened(st).id
    ensures st.nextId <= r.nextId
    ensures WellFormed(st) ==> WellFormed(r)
    decreases if !st.started && Expired(st.attrs, now) then 1 else 0
  {
    if st.started then st
    else
      var resumed := Opened(st);
      var current := if Expired(resumed.attrs, now) then AfterStart(AfterDestroy(resumed), now) else resumed;
      current.(attrs := current.attrs[LAST_ACTIVITY := Int(now)])
  }

  /** `regenerate()`: an active session moves to a fresh identifier and keeps its attributes. */
  function AfterRegenerate(st: SessionState): (r: SessionState)
    ensures WellFormed(st) ==> WellFormed(r)
    ensures r.attrs == st.attrs && r.started == st.started
    ensures st.started && WellFormed(st) ==> r.id.Some? && r.id != st.id && r.id.value >= st.nextId
    ensures !st.started ==> r == st
  {
    if st.started then st.(id := Some(st.nextId), nextId := st.nextId + 1) else st
  }

  /** `set($key, $value)`. */
  function AfterSet(st: SessionState, key: string, v: Value, now: int): (r: SessionState)
    ensures WellFormed(st) ==> WellFormed(r)
    ensures r.started && r.id == AfterStart(st, now).id
  {
    var current := AfterStart(st, now);
    current.(attrs := current.attrs[key := v])
  }

  /** `remove($key)`. */
  function AfterRemove(st: SessionState, key: string, now: int): (r: SessionState)
    ensures WellFormed(st) ==> WellFormed(r)
    ensures r.started && r.id == AfterStart(st, now).id
  {
    var current := AfterStart(st, now);
    current.(attrs := current.attrs - {key})
  }

  /** `login($userId, $username)`: regenerate, then record who is logged in and when. */
  function AfterLogin(st: SessionState, userId: int, username: string, now: int): (r: SessionState)
    ensures WellFormed(st) ==> WellFormed(r)
  {
    var regenerated := AfterRegenerate(st);
    var withId := AfterSet(regenerated, USER_ID, Int(userId), now);
    var withName := AfterSet(withId, USERNAME, Str(username), now);
    AfterSet(withName, LOGIN_TIME, Int(now), now)
  }

  /** The state after `generateCsrfToken()`: a token is stored only when none is set. */
  function AfterCsrfToken(st: SessionState, now: int, randomBytes: seq<Hex.Byte>): (r: SessionState)
    ensures WellFormed(st) ==> WellFormed(r)
  {
    var current := AfterStart(st, now);
    if IsSet(current.attrs, CSRF_TOKEN_NAME) then current
    else AfterSet(current, CSRF_TOKEN_NAME, Str(Hex.Bin2Hex(randomBytes)), now)
  }

  /** The value `generateCsrfToken()` returns. */
  function CsrfToken(st: SessionState, now: int, randomBytes: seq<Hex.Byte>): Value {
    Lookup(AfterCsrfToken(st, now, randomBytes).attrs, CSRF_TOKEN_NAME, Null)
  }

  /** `validateCsrfToken($token)` on an active session: a stored token equal to the submitted one. */
  predicate CsrfMatches(attrs: map<string, Value>, token: string) {
    var stored := Lookup(attrs, CSRF_TOKEN_NAME, Null);
    stored != Null && stored.Str? && stored.s == token
  }

  // ---------------------------------------------------------------------
  // Properties of the session
  // ---------------------------------------------------------------------

  /** A second `start()` in the same request changes nothing. */
  lemma StartIsIdempotent(st: SessionState, now: int, later: int)
    ensures AfterStart(AfterStart(st, now), later) == AfterStart(st, now)
  {
  }

  /** `get` after `set` returns the value set; every other key reads as it did after `start`. */
  lemma GetAfterSet(st: SessionState, key: string, v: Value, now: int, other: string, default: Value)
    requires v != Null
    ensures Lookup(AfterSet(st, key, v, now).attrs, key, default) == v
    ensures other != key ==>
              Lookup(AfterSet(st, key, v, now).attrs, other, default) == Lookup(AfterStart(st, now).attrs, other, default)
  {
  }

  /** A key holding null counts as absent for `has` and `get`. */
  lemma NullIsAbsent(st: SessionState, key: string, now: int, default: Value)
    ensures !IsSet(AfterSet(st, key, Null, now).attrs, key)
    ensures Lookup(AfterSet(st, key, Null, now).attrs, key, default) == default
  {
  }

  /** `has` is false after `remove`; every other key keeps its value. */
  lemma HasAfterRemove(st: SessionState, key: string, now: int, other: string, default: Value)
    ensures !IsSet(AfterRemove(st, key, now).attrs, key)
    ensures AfterRemove(st, key, now).attrs == AfterStart(st, now).attrs - {key}
    ensures other != key ==>
              Lookup(AfterRemove(st, key, now).attrs, other, default) == Lookup(AfterStart(st, now).attrs, other, default)
  {
  }

  /** A flash message is read once: `getFlash` returns it and a second `getFlash` returns null. */
  lemma FlashIsReadOnce(st: SessionState, kind: string, message: string, t1: int, t2: int, t3: int)
    ensures var flashed := AfterSet(st, FlashKey(kind), Str(message), t1);
            var taken := AfterRemove(flashed, FlashKey(kind), t2);
            Lookup(AfterStart(flashed, t2).attrs, FlashKey(kind), Null) == Str(message) &&
            Lookup(AfterStart(taken, t3).attrs, FlashKey(kind), Null) == Null
  {
  }

  /** Once a token is stored, further `generateCsrfToken` calls change nothing and return it. */
  lemma CsrfTokenIsStable(st: SessionState, now: int, later: int, b1: seq<Hex.Byte>, b2: seq<Hex.Byte>)
    ensures AfterCsrfToken(AfterCsrfToken(st, now, b1), later, b2) == AfterCsrfToken(st, now, b1)
    ensures CsrfToken(AfterCsrfToken(st, now, b1), later, b2) == CsrfToken(st, now, b1)
  {
  }

  /** A freshly generated token is 64 lower-case hexadecimal characters. */
  lemma FreshCsrfTokenIsHex(st: SessionState, now: int, randomBytes: seq<Hex.Byte>)
    requires |randomBytes| == 32
    requires !IsSet(AfterStart(st, now).attrs, CSRF_TOKEN_NAME)
    ensures CsrfToken(st, now, randomBytes) == Str(Hex.Bin2Hex(randomBytes))
    ensures |CsrfToken(st, now, randomBytes).s| == 64 && Hex.AllLowerHex(CsrfToken(st, now, randomBytes).s)
  {
  }

  /** Validation fails closed without a stored token, and otherwise compares for equality. */
  lemma CsrfValidation(attrs: map<string, Value>, token: string)
    ensures !IsSet(attrs, CSRF_TOKEN_NAME) ==> !CsrfMatches(attrs, token)
    ensures IsSet(attrs, CSRF_TOKEN_NAME) && attrs[CSRF_TOKEN_NAME].Str? ==>
              (CsrfMatches(attrs, token) <==> attrs[CSRF_TOKEN_NAME].s == token)
  {
  }

  /** The token issued in a session validates, and nothing else does. */
  lemma IssuedCsrfTokenValidates(st: SessionState, now: int, randomBytes: seq<Hex.Byte>, submitted: string)
    requires CsrfToken(st, now, randomBytes).Str?
    ensures CsrfMatches(AfterCsrfToken(st, now, randomBytes).attrs, submitted) <==>
              submitted == CsrfToken(st, now, randomBytes).s
  {
  }

  /** After `login` the user is logged in under a new identifier; older attributes survive. */
  lemma LoginEstablishesUser(st: SessionState, userId: int, username: string, now: int, other: string)
    requires WellFormed(st) && st.started
    ensures var r := AfterLogin(st, userId, username, now);
            IsSet(r.attrs, USER_ID) && Lookup(r.attrs, USER_ID, Null) == Int(userId) &&
            Lookup(r.attrs, USERNAME, Null) == Str(username) &&
            Lookup(r.attrs, LOGIN_TIME, Null) == Int(now) &&
            r.id != st.id &&
            (other != USER_ID && other != USERNAME && other != LOGIN_TIME ==>
              Lookup(r.attrs, other, Null) == Lookup(st.attrs, other, Null))
  {
  }

  /** `destroy` of an active session discards every attribute, so the user is logged out. */
  lemma DestroyLogsOut(st: SessionState, now: int)
    requires st.started
    ensures AfterDestroy(st).attrs == map[] && !AfterDestroy(st).started
    ensures AfterStart(AfterDestroy(st), now).attrs == map[LAST_ACTIVITY := Int(now)]
    ensures !IsSet(AfterStart(AfterDestroy(st), now).attrs, USER_ID)
  {
  }

  // ---------------------------------------------------------------------
  // The session object
  // ---------------------------------------------------------------------

  class Session {
    var started: bool
    var attrs: map<string, Value>
    var id: Option<nat>
    var nextId: nat

    function State(): SessionState
      reads this
    {
      SessionState(started, attrs, id, nextId)
    }

    /**
     * A request before `start()`: the attributes stored for the session
     * cookie `cookie` (none without a cookie), and the next identifier
     * the store would hand out.
     */
    constructor (cookie: Option<nat>, stored: map<string, Value>, nextFreeId: nat)
      requires cookie.Some? ==> cookie.value < nextFreeId
      ensures State() == SessionState(false, stored, cookie, nextFreeId)
      ensures WellFormed(State())
    {
      started := false;
      attrs := stored;
      id := cookie;
      nextId := nextFreeId;
    }

    method Start(now: int)
      modifies this
      ensures State() == AfterStart(old(State()), now)
      decreases if !started && Expired(attrs, now) then 1 else 0
    {
      if started {
        return;
      }
      // session_start(): resume the cookie's session, or open a new one
      if id.None? {
        id := Some(nextId);
        nextId := nextId + 1;
      }
      started := true;
      if Expired(attrs, now) {
        Destroy();
        Start(now);
      }
      attrs := attrs[LAST_ACTIVITY := Int(now)];
    }

    method Destroy()
      modifies this
      ensures State() == AfterDestroy(old(State()))
    {
      if started {
        attrs := map[];
        // the cookie is expired and session_destroy() drops the identifier
        id := None;
        started := false;
      }
    }

    method Regenerate()
      modifies this
      ensures State() == AfterRegenerate(old(State()))
    {
      if started {
        id := Some(nextId);
        nextId := nextId + 1;
      }
    }

    method Set(key: string, value: Value, now: int)
      modifies this
      ensures State() == AfterSet(old(State()), key, value, now)
    {
      Start(now);
      attrs := attrs[key := value];
    }

    method Get(key: string, default: Value, now: int) returns (v: Value)
      modifies this
      ensures State() == AfterStart(old(State()), now)
      ensures v == Lookup(attrs, key, default)
    {
      Start(now);
      v := if key in attrs && attrs[key] != Null then attrs[key] else default;
    }

    method Has(key: string, now: int) returns (b: bool)
      modifies this
      ensures State() == AfterStart(old(State()), now)
      ensures b == IsSet(attrs, key)
    {
      Start(now);
      b := key in attrs && attrs[key] != Null;
    }

    method Remove(key: string, now: int)
      modifies this
      ensures State() == AfterRemove(old(State()), key, now)
    {
      Start(now);
      attrs := attrs - {key};
    }

    method Flash(kind: string, message: string, now: int)
      modifies this
      ensures State() == AfterSet(old(State()), FlashKey(kind), Str(message), now)
    {
      Set(FlashKey(kind), Str(message), now);
    }

    method GetFlash(kind: string, now: int) returns (message: Value)
      modifies this
      ensures message == Lookup(AfterStart(old(State()), now).attrs, FlashKey(kind), Null)
      ensures State() == AfterRemove(old(State()), FlashKey(kind), now)
    {
      message := Get(FlashKey(kind), Null, now);
      Remove(FlashKey(kind), now);
    }

    method IsLoggedIn(now: int) returns (b: bool)
      modifies this
      ensures State() == AfterStart(old(State()), now)
      ensures b == IsSet(attrs, USER_ID)
    {
      b := Has(USER_ID, now);
    }

    method GetUserId(now: int) returns (v: Value)
      modifies this
      ensures State() == AfterStart(old(State()), now)
      ensures v == Lookup(attrs, USER_ID, Null)
    {
      v := Get(USER_ID, Null, now);
    }

    method Login(userId: int, username: string, now: int)
      modifies this
      ensures State() == AfterLogin(old(State()), userId, username, now)
    {
      Regenerate();
      Set(USER_ID, Int(userId), now);
      Set(USERNAME, Str(username), now);
      Set(LOGIN_TIME, Int(now), now);
    }

    /** `randomBytes` stands for `random_bytes(32)`. */
    method GenerateCsrfToken(now: int, randomBytes: seq<Hex.Byte>) returns (token: Value)
      requires |randomBytes| == 32
      modifies this
      ensures State() == AfterCsrfToken(old(State()), now, randomBytes)
      ensures token == CsrfToken(old(State()), now, randomBytes)
    {
      var present := Has(CSRF_TOKEN_NAME, now);
      if !present {
        Set(CSRF_TOKEN_NAME, Str(Hex.Bin2Hex(randomBytes)), now);
      }
      token := Get(CSRF_TOKEN_NAME, Null, now);
    }

    /** `hash_equals` is modelled as plain equality. */
    method ValidateCsrfToken(token: string, now: int) returns (ok: bool)
      modifies this
      ensures State() == AfterStart(old(State()), now)
      ensures ok == CsrfMatches(attrs, token)
    {
      var stored := Get(CSRF_TOKEN_NAME, Null, now);
      if stored == Null {
        return false;
      }
      ok := stored.Str? && stored.s == token;
    }
  }
}
