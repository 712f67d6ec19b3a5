/**
 * The POST handler of public/login.php: CSRF, then the throttle, then the
 * presence of both fields, then the credentials.
 *
 * `findByUsername` is the `users` parameter and `password_verify` the
 * `passwordOk` parameter. The handler's decision is the pure `OutcomeOf`;
 * the session, the log, the page's `$error`, the response and the order of
 * the collaborator calls (`trace`) are functions of it.
 */
module LoginPage {
  import opened Wrappers
  import opened Config
  import opened Text
  import opened Sessions
  import opened Logging
  import opened Auth
  import opened ResetTokens

  /** A collaborator call the handler makes, in the order it makes them. */
  datatype Call = CheckCsrf | CheckRateLimit | ReadRemaining | FindUser | VerifyPassword
                | ClearAttempts | LogIn | RecordFailure | LogAttempt

  datatype Outcome = CsrfRejected | RateLimited(minutes: int) | MissingFields
                   | InvalidCredentials(userFound: bool) | LoggedIn(user: UserRow)

  /** `ceil($remaining / 60)` for a non-negative number of seconds. */
  function CeilMinutes(seconds: int): (minutes: int)
    requires seconds >= 0
    ensures minutes >= 0 && minutes * 60 >= seconds
    ensures seconds > 0 ==> (minutes - 1) * 60 < seconds
    ensures seconds == 0 ==> minutes == 0
  {
    (seconds + 59) / 60
  }

  /**
   * What the form submits: the CSRF field, `trim($_POST['username'] ?? '')`
   * and `$_POST['password'] ?? ''`.
   */
  datatype LoginForm = LoginForm(token: string, username: string, password: string)

  function FormOf(post: map<string, string>): LoginForm {
    LoginForm(SubmittedToken(post), Trim(PostField(post, "username")), PostField(post, "password"))
  }

  /** Which way the handler goes, from the session as it was before it ran. */
  function OutcomeOf(st: SessionState, form: LoginForm, users: string -> Option<UserRow>,
                     passwordOk: (string, string) -> bool, md5: string -> string, now: int): Outcome
  {
    var current := AfterStart(st, now);
    if !CsrfMatches(current.attrs, form.token) then CsrfRejected
    else CheckedOutcome(current, form, users, passwordOk, md5, now)
  }

  /** The decision past a valid CSRF token: the throttle, missing fields, then the credentials. */
  function CheckedOutcome(current: SessionState, form: LoginForm, users: string -> Option<UserRow>,
                          passwordOk: (string, string) -> bool, md5: string -> string, now: int): (outcome: Outcome)
    ensures outcome != CsrfRejected
  {
    var stored := Stored(current.attrs, ThrottleKey(md5, form.username));
    if !RateCheck(stored, now) then RateLimited(CeilMinutes(RemainingSeconds(stored, now)))
    else if PhpEmpty(form.username) || PhpEmpty(form.password) then MissingFields
    else
      match users(form.username)
      case None => InvalidCredentials(false)
      case Some(user) => if passwordOk(form.password, user.passwordHash) then LoggedIn(user) else InvalidCredentials(true)
  }

  /** The session after the handler. */
  function StateAfter(st: SessionState, form: LoginForm, md5: string -> string, now: int, outcome: Outcome): SessionState {
    var current := AfterStart(st, now);
    var key := ThrottleKey(md5, form.username);
    match outcome
    case LoggedIn(user) => AfterLogin(AfterRemove(current, key, now), user.id, user.name, now)
    case InvalidCredentials(_) => AfterSet(current, key, Record(AfterFailure(Stored(current.attrs, key), now)), now)
    case _ => current
  }

  /** The log lines the handler writes. */
  function LogAfter(level: Level, form: LoginForm, outcome: Outcome, ctx: Context): seq<LogEntry> {
    match outcome
    case CsrfRejected => Emit(level, Level.Warning, "CSRF validation failed", None, ctx)
    case RateLimited(_) => Emit(level, Level.Warning, "Rate limit hit for identifier: " + form.username, None, ctx)
    case MissingFields => []
    case InvalidCredentials(_) => Emit(level, Level.Info, LoginAttemptMessage(form.username, false), None, ctx)
    case LoggedIn(_) => Emit(level, Level.Info, LoginAttemptMessage(form.username, true), None, ctx)
  }

  /** `$error` as the page renders it. */
  function ErrorOf(outcome: Outcome): string {
    match outcome
    case RateLimited(minutes) => "Too many login attempts. Please try again in " + IntToDecimal(minutes) + " minute(s)."
    case MissingFields => "Please enter your username and password."
    case InvalidCredentials(_) => "Invalid username or password."
    case _ => ""
  }

  function ResponseOf(outcome: Outcome): Response {
    match outcome
    case CsrfRejected => Abort(403, CSRF_FAILURE_PAGE)
    case LoggedIn(_) => Redirect(BASE_URL + "dashboard.php")
    case _ => Proceed
  }

  function TraceOf(outcome: Outcome): (calls: seq<Call>)
    ensures calls != [] && calls[0] == CheckCsrf
  {
    match outcome
    case CsrfRejected => [CheckCsrf]
    case RateLimited(_) => [CheckCsrf, CheckRateLimit, ReadRemaining]
    case MissingFields => [CheckCsrf, CheckRateLimit]
    case InvalidCredentials(found) =>
      [CheckCsrf, CheckRateLimit, FindUser] + (if found then [VerifyPassword] else []) + [RecordFailure, LogAttempt]
    case LoggedIn(_) => [CheckCsrf, CheckRateLimit, FindUser, VerifyPassword, ClearAttempts, LogIn, LogAttempt]
  }

  // ---------------------------------------------------------------------
  // Properties of the handler
  // ---------------------------------------------------------------------

  /** A bad CSRF token stops the request before anything else, whatever the credentials. */
  lemma CsrfFirst(st: SessionState, form: LoginForm, users: string -> Option<UserRow>,
                  passwordOk: (string, string) -> bool, md5: string -> string, now: int)
    requires !CsrfMatches(AfterStart(st, now).attrs, form.token)
    ensures var outcome := OutcomeOf(st, form, users, passwordOk, md5, now);
            outcome == CsrfRejected && TraceOf(outcome) == [CheckCsrf] &&
            StateAfter(st, form, md5, now, outcome) == AfterStart(st, now) &&
            ResponseOf(outcome) == Abort(403, CSRF_FAILURE_PAGE)
  {
  }

  /**
   * When the throttle refuses, no user is looked up and no attempt is
   * recorded; the message gives the rest of the window in whole minutes,
   * rounded up.
   */
  lemma RateLimitedSkipsCredentials(st: SessionState, form: LoginForm, users: string -> Option<UserRow>,
                                    passwordOk: (string, string) -> bool, md5: string -> string, now: int)
    requires OutcomeOf(st, form, users, passwordOk, md5, now).RateLimited?
    ensures var outcome := OutcomeOf(st, form, users, passwordOk, md5, now);
            var seconds := RemainingSeconds(Stored(AfterStart(st, now).attrs, ThrottleKey(md5, form.username)), now);
            FindUser !in TraceOf(outcome) && RecordFailure !in TraceOf(outcome) &&
            StateAfter(st, form, md5, now, outcome) == AfterStart(st, now) &&
            0 <= seconds && outcome.minutes == CeilMinutes(seconds)
  {
  }

  /** An empty username or password is refused without a lookup or a recorded attempt. */
  lemma MissingFieldsSkipLookup(st: SessionState, form: LoginForm, users: string -> Option<UserRow>,
                                passwordOk: (string, string) -> bool, md5: string -> string, now: int)
    requires CsrfMatches(AfterStart(st, now).attrs, form.token)
    requires RateCheck(Stored(AfterStart(st, now).attrs, ThrottleKey(md5, form.username)), now)
    requires PhpEmpty(form.username) || PhpEmpty(form.password)
    ensures var outcome := OutcomeOf(st, form, users, passwordOk, md5, now);
            outcome == MissingFields && FindUser !in TraceOf(outcome) && RecordFailure !in TraceOf(outcome) &&
            StateAfter(st, form, md5, now, outcome) == AfterStart(st, now)
  {
  }

  /**
   * Correct credentials clear the throttle record, then log the user in:
   * the session names the user, under a new identifier, with no throttle
   * record left for the username.
   */
  lemma SuccessfulLogin(st: SessionState, form: LoginForm, md5: string -> string, now: int, user: UserRow)
    requires WellFormed(st)
    ensures var after := StateAfter(st, form, md5, now, LoggedIn(user));
            Lookup(after.attrs, USER_ID, Null) == Int(user.id) &&
            Lookup(after.attrs, USERNAME, Null) == Str(user.name) &&
            Stored(after.attrs, ThrottleKey(md5, form.username)) == None &&
            after.id != AfterStart(st, now).id
    ensures TraceOf(LoggedIn(user))[4] == ClearAttempts && TraceOf(LoggedIn(user))[5] == LogIn
    ensures ResponseOf(LoggedIn(user)) == Redirect(BASE_URL + "dashboard.php")
  {
    var key := ThrottleKey(md5, form.username);
    ThrottleKeyIsolated(md5, form.username, form.username, "");
    var cleared := AfterRemove(AfterStart(st, now), key, now);
    LoginEstablishesUser(cleared, user.id, user.name, now, key);
  }

  /**
   * An unknown user and a wrong password cannot be told apart: the same
   * message, the same response, the same log line, and the same one more
   * failure on the throttle record.
   */
  lemma FailuresLookAlike(st: SessionState, form: LoginForm, md5: string -> string, now: int, level: Level, ctx: Context)
    ensures ErrorOf(InvalidCredentials(false)) == ErrorOf(InvalidCredentials(true)) == "Invalid username or password."
    ensures ResponseOf(InvalidCredentials(false)) == ResponseOf(InvalidCredentials(true))
    ensures LogAfter(level, form, InvalidCredentials(false), ctx) == LogAfter(level, form, InvalidCredentials(true), ctx)
    ensures StateAfter(st, form, md5, now, InvalidCredentials(false)) == StateAfter(st, form, md5, now, InvalidCredentials(true))
    ensures var key := ThrottleKey(md5, form.username);
            Stored(StateAfter(st, form, md5, now, InvalidCredentials(false)).attrs, key) ==
              Some(AfterFailure(Stored(AfterStart(st, now).attrs, key), now))
  {
  }

  // ---------------------------------------------------------------------
  // The handler
  // ---------------------------------------------------------------------

  method HandlePost(s: Session, log: Logger, post: map<string, string>, users: string -> Option<UserRow>,
                    passwordOk: (string, string) -> bool, md5: string -> string, now: int, ctx: Context)
    returns (response: Response, error: string, trace: seq<Call>)
    modifies s, log
    ensures var outcome := OutcomeOf(old(s.State()), FormOf(post), users, passwordOk, md5, now);
            s.State() == StateAfter(old(s.State()), FormOf(post), md5, now, outcome) &&
            response == ResponseOf(outcome) && error == ErrorOf(outcome) && trace == TraceOf(outcome)
    ensures log.level == old(log.level)
    ensures log.written == old(log.written) +
              LogAfter(log.level, FormOf(post), OutcomeOf(old(s.State()), FormOf(post), users, passwordOk, md5, now), ctx)
  {
    var gate := RequireCsrf(s, log, post, now, ctx);
    if gate.Abort? {
      return gate, "", [CheckCsrf];
    }
    assert log.written == old(log.written) && s.State() == AfterStart(old(s.State()), now);
    var username := Trim(PostField(post, "username"));
    var password := PostField(post, "password");
    response, error, trace := Authenticate(s, log, LoginForm(SubmittedToken(post), username, password), users, passwordOk, md5, now, ctx);
  }

  /** Lines past `Auth::requireCsrf()`, on a started session; `trace` includes the CSRF check already made. */
  method Authenticate(s: Session, log: Logger, form: LoginForm, users: string -> Option<UserRow>,
                      passwordOk: (string, string) -> bool, md5: string -> string, now: int, ctx: Context)
    returns (response: Response, error: string, trace: seq<Call>)
    requires s.State().started
    modifies s, log
    ensures var outcome := CheckedOutcome(old(s.State()), form, users, passwordOk, md5, now);
            s.State() == StateAfter(old(s.State()), form, md5, now, outcome) &&
            response == ResponseOf(outcome) && error == ErrorOf(outcome) && trace == TraceOf(outcome)
    ensures log.level == old(log.level)
    ensures log.written == old(log.written) +
              LogAfter(log.level, form, CheckedOutcome(old(s.State()), form, users, passwordOk, md5, now), ctx)
  {
    var allowed := Auth.CheckRateLimit(s, log, md5, form.username, now, ctx);
    if !allowed {
      var remaining := GetRateLimitRemaining(s, md5, form.username, now);
      return Proceed, "Too many login attempts. Please try again in " + IntToDecimal(CeilMinutes(remaining)) + " minute(s).",
        [CheckCsrf, Call.CheckRateLimit, ReadRemaining];
    }
    assert log.written == old(log.written) && s.State() == old(s.State());
    if PhpEmpty(form.username) || PhpEmpty(form.password) {
      return Proceed, "Please enter your username and password.", [CheckCsrf, Call.CheckRateLimit];
    }
    response, error, trace := CheckCredentials(s, log, form, users, passwordOk, md5, now, ctx);
  }

  /** The credential check, once the throttle allows the attempt and both fields are present. */
  method CheckCredentials(s: Session, log: Logger, form: LoginForm, users: string -> Option<UserRow>,
                          passwordOk: (string, string) -> bool, md5: string -> string, now: int, ctx: Context)
    returns (response: Response, error: string, trace: seq<Call>)
    requires s.State().started
    requires RateCheck(Stored(s.State().attrs, ThrottleKey(md5, form.username)), now)
    requires !PhpEmpty(form.username) && !PhpEmpty(form.password)
    modifies s, log
    ensures var outcome := CheckedOutcome(old(s.State()), form, users, passwordOk, md5, now);
            s.State() == StateAfter(old(s.State()), form, md5, now, outcome) &&
            response == ResponseOf(outcome) && error == ErrorOf(outcome) && trace == TraceOf(outcome)
    ensures log.level == old(log.level)
    ensures log.written == old(log.written) +
              LogAfter(log.level, form, CheckedOutcome(old(s.State()), form, users, passwordOk, md5, now), ctx)
  {
    trace := [CheckCsrf, Call.CheckRateLimit, FindUser];
    var user := users(form.username);
    var verified := false;
    if user.Some? {
      trace := trace + [VerifyPassword];
      verified := passwordOk(form.password, user.value.passwordHash);
    }
    if verified {
      Auth.ClearAttempts(s, md5, form.username, now);
      s.Login(user.value.id, user.value.name, now);
      log.LoginAttempt(form.username, true, ctx);
      return Redirect(BASE_URL + "dashboard.php"), "", trace + [Call.ClearAttempts, LogIn, LogAttempt];
    }
    Auth.RecordFailedAttempt(s, md5, form.username, now);
    log.LoginAttempt(form.username, false, ctx);
    return Proceed, "Invalid username or password.", trace + [RecordFailure, LogAttempt];
  }
}
