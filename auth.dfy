/**
 * The middleware of app/middleware/Auth.php: the login throttle kept in
 * the session, CSRF enforcement, and the login/guest gates.
 *
 * The throttle record of an identifier lives in the session under
 * `'login_attempts_' . md5($identifier)`; `md5` is a parameter. Exiting
 * with a redirect or a 403 page is a `Response` value returned to the
 * caller.
 */
module Auth {
  import opened Wrappers
  import opened Config
  import opened Sessions
  import opened Logging

  /** How a gate lets the request go on: on, to another page, or ended with a status and a body. */
  datatype Response = Proceed | Redirect(location: string) | Abort(status: int, body: string)

  const THROTTLE_PREFIX: string := "login_attempts_"
  const CSRF_FAILURE_PAGE: string := "Invalid security token. Please refresh the page and try again."
  const LOGIN_REQUIRED: string := "Please log in to access this page."

  /** The one session key every throttle operation uses for `identifier`. */
  function ThrottleKey(md5: string -> string, identifier: string): string {
    THROTTLE_PREFIX + md5(identifier)
  }

  /** The throttle record `Session::get($key, …)` finds: a stored record, or none. */
  function Stored(attrs: map<string, Value>, key: string): Option<AttemptRecord> {
    match Lookup(attrs, key, Null)
    case Record(rec) => Some(rec)
    case _ => None
  }

  /**
   * `checkRateLimit` on the record read from the session (default count 0,
   * first attempt 0): the window is reset in a local copy only, then the
   * count is compared with the limit.
   */
  function RateCheck(stored: Option<AttemptRecord>, now: int): (allowed: bool)
    ensures !allowed <==>
              stored.Some? && stored.value.count >= LOGIN_RATE_LIMIT && now - stored.value.firstAttempt <= LOGIN_RATE_WINDOW
  {
    var attempts := stored.GetOr(AttemptRecord(0, 0));
    var current := if now - attempts.firstAttempt > LOGIN_RATE_WINDOW then AttemptRecord(0, now) else attempts;
    current.count < LOGIN_RATE_LIMIT
  }

  /** The record `recordFailedAttempt` stores (default count 0, first attempt now). */
  function AfterFailure(stored: Option<AttemptRecord>, now: int): (rec: AttemptRecord)
    ensures rec.count == (if stored.Some? then stored.value.count else 0) + 1
    ensures stored.Some? && stored.value.count != 0 ==> rec.firstAttempt == stored.value.firstAttempt
    ensures stored.None? || stored.value.count == 0 ==> rec.firstAttempt == now
  {
    var attempts := stored.GetOr(AttemptRecord(0, now));
    var first := if attempts.count == 0 then now else attempts.firstAttempt;
    AttemptRecord(attempts.count + 1, first)
  }

  /** `getRateLimitRemaining` on the record read from the session (no window reset here). */
  function RemainingSeconds(stored: Option<AttemptRecord>, now: int): (seconds: int)
    ensures seconds >= 0
    ensures stored.None? || stored.value.count < LOGIN_RATE_LIMIT ==> seconds == 0
    ensures stored.Some? && stored.value.firstAttempt <= now ==> seconds <= LOGIN_RATE_WINDOW
  {
    var attempts := stored.GetOr(AttemptRecord(0, 0));
    if attempts.count < LOGIN_RATE_LIMIT then 0
    else
      var remaining := LOGIN_RATE_WINDOW - (now - attempts.firstAttempt);
      if remaining > 0 then remaining else 0
  }

  /** The record after a failed attempt at each of `times` in turn, on one identifier. */
  function FailuresFrom(stored: Option<AttemptRecord>, times: seq<int>): Option<AttemptRecord>
    decreases |times|
  {
    if times == [] then stored else FailuresFrom(Some(AfterFailure(stored, times[0])), times[1..])
  }

  /** `$_POST[$name] ?? ''`. */
  function PostField(post: map<string, string>, name: string): string {
    if name in post then post[name] else ""
  }

  /** The CSRF value `$_POST[CSRF_TOKEN_NAME] ?? ''` submits. */
  function SubmittedToken(post: map<string, string>): string {
    PostField(post, CSRF_TOKEN_NAME)
  }

  // ---------------------------------------------------------------------
  // Properties of the throttle
  // ---------------------------------------------------------------------

  /** Throttle keys never collide with the session's own keys, and distinct identifiers get distinct keys. */
  lemma ThrottleKeyIsolated(md5: string -> string, identifier: string, other: string, kind: string)
    ensures ThrottleKey(md5, identifier) !in {LAST_ACTIVITY, USER_ID, USERNAME, LOGIN_TIME, CSRF_TOKEN_NAME}
    ensures ThrottleKey(md5, identifier) != FlashKey(kind)
    ensures md5(identifier) != md5(other) ==> ThrottleKey(md5, identifier) != ThrottleKey(md5, other)
  {
    var key := ThrottleKey(md5, identifier);
    assert key[0] == 'l' && key[1] == 'o' && key[6] == 'a';
    assert FlashKey(kind)[0] == 'f';
    if md5(identifier) != md5(other) {
      assert key[|THROTTLE_PREFIX|..] == md5(identifier);
      assert ThrottleKey(md5, other)[|THROTTLE_PREFIX|..] == md5(other);
    }
  }

  /** Without a stored record the rate check passes, and so it does right after `clearAttempts` or `destroy`. */
  lemma NoRecordAllows(st: SessionState, md5: string -> string, identifier: string, now: int, later: int)
    ensures RateCheck(None, now)
    ensures RateCheck(Stored(AfterRemove(st, ThrottleKey(md5, identifier), now).attrs, ThrottleKey(md5, identifier)), later)
    ensures st.started ==>
              Stored(AfterStart(AfterDestroy(st), now).attrs, ThrottleKey(md5, identifier)) == None
  {
    ThrottleKeyIsolated(md5, identifier, identifier, "");
  }

  /** Failed attempts on an existing, non-empty record add to its count and keep its first attempt. */
  lemma {:induction false} FailuresAccumulate(count: int, first: int, times: seq<int>)
    requires count > 0
    ensures FailuresFrom(Some(AttemptRecord(count, first)), times) == Some(AttemptRecord(count + |times|, first))
    decreases |times|
  {
    if times != [] {
      FailuresAccumulate(count + 1, first, times[1..]);
    }
  }

  /** Starting with no record, `n` failures leave count `n` and the first failure's time. */
  lemma FreshFailures(times: seq<int>)
    requires times != []
    ensures FailuresFrom(None, times) == Some(AttemptRecord(|times|, times[0]))
  {
    FailuresAccumulate(1, times[0], times[1..]);
  }

  /**
   * LOGIN_RATE_LIMIT failures block the rate check until LOGIN_RATE_WINDOW
   * seconds have passed since the first of them, and no longer.
   */
  lemma LimitFailuresBlock(times: seq<int>, t: int)
    requires |times| >= LOGIN_RATE_LIMIT
    ensures !RateCheck(FailuresFrom(None, times), t) <==> t - times[0] <= LOGIN_RATE_WINDOW
  {
    FreshFailures(times);
  }

  /** With limit 5 and window 900: failures at 0..4 block the rate check at 5, with 895 seconds to go. */
  lemma FiveFailuresScenario()
    ensures FailuresFrom(None, [0, 1, 2, 3, 4]) == Some(AttemptRecord(5, 0))
    ensures !RateCheck(FailuresFrom(None, [0, 1, 2, 3, 4]), 5)
    ensures RemainingSeconds(FailuresFrom(None, [0, 1, 2, 3, 4]), 5) == 895
  {
    FreshFailures([0, 1, 2, 3, 4]);
  }

  /**
   * The window is never reset in storage: once it has lapsed on a record
   * that has been counted, every later check passes however many more
   * failures are recorded, and the count keeps growing from the old first
   * attempt.
   */
  lemma StaleWindowNeverBlocks(count: int, first: int, times: seq<int>)
    requires count > 0
    requires forall i :: 0 <= i < |times| ==> times[i] - first > LOGIN_RATE_WINDOW
    ensures forall i :: 0 <= i < |times| ==> RateCheck(FailuresFrom(Some(AttemptRecord(count, first)), times[..i]), times[i])
    ensures FailuresFrom(Some(AttemptRecord(count, first)), times) == Some(AttemptRecord(count + |times|, first))
  {
    forall i | 0 <= i < |times|
      ensures RateCheck(FailuresFrom(Some(AttemptRecord(count, first)), times[..i]), times[i])
    {
      FailuresAccumulate(count, first, times[..i]);
    }
    FailuresAccumulate(count, first, times);
  }

  /** The remaining time is zero whenever the rate check passes, and the rest of the window when it fails. */
  lemma RemainingAgreesWithCheck(stored: Option<AttemptRecord>, now: int)
    ensures RateCheck(stored, now) ==> RemainingSeconds(stored, now) == 0
    ensures !RateCheck(stored, now) ==>
              RemainingSeconds(stored, now) == LOGIN_RATE_WINDOW - (now - stored.value.firstAttempt)
  {
  }

  /** `validateCsrf` with the field missing submits the empty string, which no issued token equals. */
  lemma MissingCsrfFieldFails(attrs: map<string, Value>, post: map<string, string>)
    requires CSRF_TOKEN_NAME !in post
    requires IsSet(attrs, CSRF_TOKEN_NAME) ==> attrs[CSRF_TOKEN_NAME] != Str("")
    ensures !CsrfMatches(attrs, SubmittedToken(post))
  {
  }

  // ---------------------------------------------------------------------
  // The middleware over a session and a logger
  // ---------------------------------------------------------------------

  method CheckRateLimit(s: Session, log: Logger, md5: string -> string, identifier: string, now: int, ctx: Context)
    returns (allowed: bool)
    modifies s, log
    ensures s.State() == AfterStart(old(s.State()), now)
    ensures allowed == RateCheck(Stored(s.attrs, ThrottleKey(md5, identifier)), now)
    ensures log.level == old(log.level)
    ensures log.written == old(log.written) +
              (if allowed then [] else Emit(log.level, Level.Warning, "Rate limit hit for identifier: " + identifier, None, ctx))
  {
    s.Start(now);
    var key := ThrottleKey(md5, identifier);
    var v := s.Get(key, Record(AttemptRecord(0, 0)), now);
    var attempts := if v.Record? then v.rec else AttemptRecord(0, 0);
    // reset if the window has passed, in this local copy only
    if now - attempts.firstAttempt > LOGIN_RATE_WINDOW {
      attempts := AttemptRecord(0, now);
    }
    if attempts.count >= LOGIN_RATE_LIMIT {
      log.Warning("Rate limit hit for identifier: " + identifier, None, ctx);
      return false;
    }
    return true;
  }

  method RecordFailedAttempt(s: Session, md5: string -> string, identifier: string, now: int)
    modifies s
    ensures s.State() == AfterSet(old(s.State()), ThrottleKey(md5, identifier),
                          Record(AfterFailure(Stored(AfterStart(old(s.State()), now).attrs, ThrottleKey(md5, identifier)), now)), now)
  {
    s.Start(now);
    var key := ThrottleKey(md5, identifier);
    var v := s.Get(key, Record(AttemptRecord(0, now)), now);
    var attempts := if v.Record? then v.rec else AttemptRecord(0, now);
    if attempts.count == 0 {
      attempts := attempts.(firstAttempt := now);
    }
    attempts := attempts.(count := attempts.count + 1);
    s.Set(key, Record(attempts), now);
  }

  method ClearAttempts(s: Session, md5: string -> string, identifier: string, now: int)
    modifies s
    ensures s.State() == AfterRemove(old(s.State()), ThrottleKey(md5, identifier), now)
  {
    s.Start(now);
    s.Remove(ThrottleKey(md5, identifier), now);
  }

  method GetRateLimitRemaining(s: Session, md5: string -> string, identifier: string, now: int) returns (seconds: int)
    modifies s
    ensures s.State() == AfterStart(old(s.State()), now)
    ensures seconds == RemainingSeconds(Stored(s.attrs, ThrottleKey(md5, identifier)), now)
  {
    s.Start(now);
    var v := s.Get(ThrottleKey(md5, identifier), Record(AttemptRecord(0, 0)), now);
    var attempts := if v.Record? then v.rec else AttemptRecord(0, 0);
    if attempts.count < LOGIN_RATE_LIMIT {
      return 0;
    }
    var remaining := LOGIN_RATE_WINDOW - (now - attempts.firstAttempt);
    seconds := if remaining > 0 then remaining else 0;
  }

  method ValidateCsrf(s: Session, log: Logger, post: map<string, string>, now: int, ctx: Context) returns (ok: bool)
    modifies s, log
    ensures s.State() == AfterStart(old(s.State()), now)
    ensures ok == CsrfMatches(s.attrs, SubmittedToken(post))
    ensures log.level == old(log.level)
    ensures log.written == old(log.written) + (if ok then [] else Emit(log.level, Level.Warning, "CSRF validation failed", None, ctx))
  {
    var token := if CSRF_TOKEN_NAME in post then post[CSRF_TOKEN_NAME] else "";
    ok := s.ValidateCsrfToken(token, now);
    if !ok {
      log.Warning("CSRF validation failed", None, ctx);
    }
  }

  method RequireCsrf(s: Session, log: Logger, post: map<string, string>, now: int, ctx: Context) returns (r: Response)
    modifies s, log
    ensures s.State() == AfterStart(old(s.State()), now)
    ensures r == if CsrfMatches(s.attrs, SubmittedToken(post)) then Proceed else Abort(403, CSRF_FAILURE_PAGE)
    ensures log.level == old(log.level)
    ensures log.written == old(log.written) + (if r.Proceed? then [] else Emit(log.level, Level.Warning, "CSRF validation failed", None, ctx))
  {
    var ok := ValidateCsrf(s, log, post, now, ctx);
    if !ok {
      return Abort(403, CSRF_FAILURE_PAGE);
    }
    return Proceed;
  }

  method RequireLogin(s: Session, now: int) returns (r: Response)
    modifies s
    ensures r == if IsSet(AfterStart(old(s.State()), now).attrs, USER_ID) then Proceed else Redirect(BASE_URL + "login.php")
    ensures r.Proceed? ==> s.State() == AfterStart(old(s.State()), now)
    ensures r.Redirect? ==> s.State() == AfterSet(old(s.State()), FlashKey("error"), Str(LOGIN_REQUIRED), now)
  {
    s.Start(now);
    var loggedIn := s.IsLoggedIn(now);
    if !loggedIn {
      s.Flash("error", LOGIN_REQUIRED, now);
      return Redirect(BASE_URL + "login.php");
    }
    return Proceed;
  }

  method RequireGuest(s: Session, now: int) returns (r: Response)
    modifies s
    ensures s.State() == AfterStart(old(s.State()), now)
    ensures r == if IsSet(s.attrs, USER_ID) then Redirect(BASE_URL + "dashboard.php") else Proceed
  {
    s.Start(now);
    var loggedIn := s.IsLoggedIn(now);
    if loggedIn {
      return Redirect(BASE_URL + "dashboard.php");
    }
    return Proceed;
  }
}
