/**
 * public/reset-password.php: the "request" action issues a reset token for
 * a username, the "reset" action checks the new password and the token and,
 * when both hold and the password is stored, consumes the user's tokens.
 *
 * `findByUsername` is the `users` parameter. `updatePassword` is modelled by
 * its outcome alone (`updateFault`: none, or the database exception it
 * caught) and by the log line it writes; the users table is not part of
 * this model. The page's `$step`, `$error` and `$success` are a `PageView`.
 */
module ResetPasswordPage {
  import opened Wrappers
  import opened Config
  import opened Text
  import opened Sessions
  import opened Logging
  import opened Auth
  import opened ResetTokens
  import opened Validation
  import Hex

  datatype Step = RequestStep | VerifyStep | ResetStep

  /** The variables the page renders. */
  datatype PageView = PageView(step: Step, error: string, success: string)

  /** `$step` before the form is handled: "reset" when the query string carries a token. */
  function InitialStep(queryToken: string): (step: Step)
    ensures step == ResetStep <==> !PhpEmpty(queryToken)
  {
    if PhpEmpty(queryToken) then RequestStep else ResetStep
  }

  const GENERIC_NOTICE := "If an account with that username exists, a reset token has been generated."
  const REQUEST_FAILED := "An error occurred. Please try again."

  /** The notice that shows a freshly issued token. */
  function TokenNotice(token: string): string {
    "Reset token generated. Token: <code>" + token + "</code><br><small>In production, this would be emailed to you.</small>"
  }

  // ---------------------------------------------------------------------
  // The "request" action
  // ---------------------------------------------------------------------

  datatype RequestOutcome = NoUsername | UnknownUser | TokenIssued(token: string) | IssueFailed

  function RequestOutcomeOf(username: string, users: string -> Option<UserRow>, randomBytes: seq<Hex.Byte>, fault: Fault)
    : (outcome: RequestOutcome)
    requires |randomBytes| == 32
    ensures outcome.TokenIssued? ==> |outcome.token| == 64 && Hex.AllLowerHex(outcome.token)
  {
    if PhpEmpty(username) then NoUsername
    else match users(username)
      case None => UnknownUser
      case Some(_) =>
        match CreateResult(randomBytes, fault)
        case Some(token) => TokenIssued(token)
        case None => IssueFailed
  }

  function RequestView(step: Step, outcome: RequestOutcome): PageView {
    match outcome
    case NoUsername => PageView(step, "Please enter your username.", "")
    case UnknownUser => PageView(VerifyStep, "", GENERIC_NOTICE)
    case TokenIssued(token) => PageView(VerifyStep, "", TokenNotice(token))
    case IssueFailed => PageView(step, REQUEST_FAILED, "")
  }

  /** The token table after the action: only a user found by name gets `createPasswordResetToken`. */
  function RowsAfterRequest(rows: set<ResetRow>, username: string, users: string -> Option<UserRow>, randomBytes: seq<Hex.Byte>,
                            sha: string -> string, now: int, fault: Fault): set<ResetRow>
  {
    if PhpEmpty(username) then rows
    else match users(username)
      case None => rows
      case Some(user) => RowsAfterCreate(rows, user.id, randomBytes, sha, now, fault)
  }

  function RequestLog(level: Level, username: string, users: string -> Option<UserRow>, fault: Fault, ctx: Context): seq<LogEntry> {
    if PhpEmpty(username) then []
    else match users(username)
      case None => []
      case Some(user) => CreateLog(level, user.id, fault, ctx)
  }

  /**
   * An unknown username moves the page on to the token step with a notice
   * and touches neither the table nor the log; an empty one stays where it
   * was with an error.
   */
  lemma RequestForUnknownUser(rows: set<ResetRow>, step: Step, username: string, users: string -> Option<UserRow>,
                              randomBytes: seq<Hex.Byte>, sha: string -> string, now: int, fault: Fault, level: Level, ctx: Context)
    requires |randomBytes| == 32
    requires PhpEmpty(username) || users(username).None?
    ensures RowsAfterRequest(rows, username, users, randomBytes, sha, now, fault) == rows
    ensures RequestLog(level, username, users, fault, ctx) == []
    ensures var view := RequestView(step, RequestOutcomeOf(username, users, randomBytes, fault));
            if PhpEmpty(username) then view == PageView(step, "Please enter your username.", "")
            else view == PageView(VerifyStep, "", GENERIC_NOTICE)
  {
  }

  /**
   * For a known user, the token the page shows is the one whose hash is
   * stored, and it is the user's only row.
   */
  lemma RequestForKnownUser(rows: set<ResetRow>, step: Step, username: string, users: string -> Option<UserRow>,
                            randomBytes: seq<Hex.Byte>, sha: string -> string, now: int, r: ResetRow)
    requires |randomBytes| == 32
    requires !PhpEmpty(username) && users(username).Some?
    ensures var outcome := RequestOutcomeOf(username, users, randomBytes, NoFault);
            var after := RowsAfterRequest(rows, username, users, randomBytes, sha, now, NoFault);
            var user := users(username).value;
            outcome.TokenIssued? && RequestView(step, outcome) == PageView(VerifyStep, "", TokenNotice(outcome.token)) &&
            ResetRow(user.id, sha(outcome.token), now + PASSWORD_RESET_EXPIRY) in after &&
            (r in after && r.userId == user.id ==> r == ResetRow(user.id, sha(outcome.token), now + PASSWORD_RESET_EXPIRY))
  {
    var user := users(username).value;
    var token := CreateResult(randomBytes, NoFault).value;
    assert RequestOutcomeOf(username, users, randomBytes, NoFault) == TokenIssued(token);
    assert RowsAfterRequest(rows, username, users, randomBytes, sha, now, NoFault)
        == RowsAfterCreate(rows, user.id, randomBytes, sha, now, NoFault);
    CreateStoresHash(rows, user.id, randomBytes, sha, now);
    CreateLeavesOneRow(rows, user.id, randomBytes, sha, now, r);
  }

  /** When the database fails, no token is shown, the page keeps its step, and no row is added. */
  lemma RequestFailsCleanly(rows: set<ResetRow>, step: Step, username: string, users: string -> Option<UserRow>,
                            randomBytes: seq<Hex.Byte>, sha: string -> string, now: int, fault: Fault)
    requires |randomBytes| == 32
    requires !PhpEmpty(username) && users(username).Some?
    requires !fault.NoFault?
    ensures var outcome := RequestOutcomeOf(username, users, randomBytes, fault);
            outcome == IssueFailed && RequestView(step, outcome) == PageView(step, REQUEST_FAILED, "") &&
            RowsAfterRequest(rows, username, users, randomBytes, sha, now, fault) <= rows
  {
    FaultyCreateAddsNothing(rows, users(username).value.id, randomBytes, sha, now, fault);
  }

  // ---------------------------------------------------------------------
  // The "reset" action
  // ---------------------------------------------------------------------

  /** `$_POST['token']`, `$_POST['password']` and `$_POST['password_confirm']`, each `?? ''`. */
  datatype ResetForm = ResetForm(token: string, password: string, confirm: string)

  const MISMATCH := "Passwords do not match."
  const BAD_TOKEN := "Invalid or missing reset token."
  const EXPIRED_TOKEN := "Invalid or expired reset token."
  const RESET_DONE := "Password has been reset. Please log in."

  /** The validator's errors for the password, then the mismatch under `password_confirm`. */
  function FormErrors(form: ResetForm): ErrorMap {
    var errors := WithError([], "password", PasswordError(form.password));
    if form.password != form.confirm then Put(errors, "password_confirm", MISMATCH) else errors
  }

  /** PHP `implode($sep, $errors)`: the messages in order, separated by `sep`. */
  function Implode(sep: string, errors: ErrorMap): (r: string)
    ensures errors == [] ==> r == ""
    ensures |errors| == 1 ==> r == errors[0].1
    decreases |errors|
  {
    if errors == [] then ""
    else if |errors| == 1 then errors[0].1
    else errors[0].1 + sep + Implode(sep, errors[1..])
  }

  /** The error the page shows before it looks at the token table, if any. */
  function Precheck(form: ResetForm): Option<string> {
    if PhpEmpty(form.token) then Some(BAD_TOKEN)
    else
      var errors := FormErrors(form);
      if errors != [] then Some(Implode(" ", errors)) else None
  }

  /** A missing token is reported first, whatever is wrong with the passwords. */
  lemma MissingTokenFirst(form: ResetForm)
    requires PhpEmpty(form.token)
    ensures Precheck(form) == Some(BAD_TOKEN)
  {
  }

  /** The table is consulted exactly when a token is given, the password is acceptable and both entries agree. */
  lemma PrecheckPasses(form: ResetForm)
    ensures Precheck(form).None? <==>
              !PhpEmpty(form.token) && PasswordError(form.password).None? && form.password == form.confirm
  {
  }

  /** With a token given, the error lists the password's problem before the mismatch, one space apart. */
  lemma PrecheckMessage(form: ResetForm)
    requires !PhpEmpty(form.token)
    ensures var pw := PasswordError(form.password);
            Precheck(form) ==
              if pw.Some? && form.password != form.confirm then Some(pw.value + " " + MISMATCH)
              else if pw.Some? then pw
              else if form.password != form.confirm then Some(MISMATCH)
              else None
  {
    var pw := PasswordError(form.password);
    if pw.Some? && form.password != form.confirm {
      var errors := FormErrors(form);
      var first := WithError([], "password", pw);
      assert first == [("password", pw.value)];
      assert first[0].0 != "password_confirm";
      assert Put(first, "password_confirm", MISMATCH) == [first[0]] + Put([], "password_confirm", MISMATCH);
      assert errors == [("password", pw.value), ("password_confirm", MISMATCH)];
      assert Implode(" ", errors) == pw.value + " " + Implode(" ", errors[1..]);
    }
  }

  /** `if ($userId)`: a user id the reset goes ahead with, truthy in PHP (0 is not). */
  predicate Accepted(verified: Option<int>) {
    verified.Some? && verified.value != 0
  }

  /** The reset goes all the way: checks pass, the token names a user, and the password is stored. */
  predicate Completed(form: ResetForm, verified: Option<int>, updateFault: Option<Throwable>) {
    Precheck(form).None? && Accepted(verified) && updateFault.None?
  }

  function ResetView(step: Step, form: ResetForm, verified: Option<int>, updateFault: Option<Throwable>): PageView {
    match Precheck(form)
    case Some(error) => PageView(step, error, "")
    case None =>
      if !Accepted(verified) then PageView(step, EXPIRED_TOKEN, "")
      else if updateFault.Some? then PageView(step, REQUEST_FAILED, "")
      else PageView(step, "", "")
  }

  function ResetResponse(form: ResetForm, verified: Option<int>, updateFault: Option<Throwable>): Response {
    if Completed(form, verified, updateFault) then Redirect(BASE_URL + "login.php") else Proceed
  }

  /** The session after the action: the success flash only when the reset completed. */
  function ResetSession(st: SessionState, form: ResetForm, verified: Option<int>, updateFault: Option<Throwable>, now: int)
    : SessionState
  {
    if Completed(form, verified, updateFault) then AfterSet(st, FlashKey("success"), Value.Str(RESET_DONE), now) else st
  }

  /** The line `updatePassword` writes: the data change, or the exception it caught. */
  function UpdateLog(level: Level, userId: int, updateFault: Option<Throwable>, ctx: Context): seq<LogEntry> {
    match updateFault
    case None => Emit(level, Level.Info, DataChangeMessage("users", "UPDATE_PASSWORD", userId), Some(userId), ctx)
    case Some(e) => Emit(level, Level.Error, ExceptionMessage(e), Some(userId), ctx)
  }

  function ResetLog(level: Level, form: ResetForm, verified: Option<int>, updateFault: Option<Throwable>, ctx: Context)
    : seq<LogEntry>
  {
    if Precheck(form).Some? || !Accepted(verified) then []
    else if updateFault.Some? then UpdateLog(level, verified.value, updateFault, ctx)
    else UpdateLog(level, verified.value, updateFault, ctx) + Emit(level, Level.Info, "Password reset completed", verified, ctx)
  }

  /**
   * A valid token whose user the database reports as 0 is turned away as
   * invalid, and nothing is changed.
   */
  lemma UserZeroIsRejected(step: Step, form: ResetForm, updateFault: Option<Throwable>, level: Level, ctx: Context)
    requires Precheck(form).None?
    ensures ResetView(step, form, Some(0), updateFault) == PageView(step, EXPIRED_TOKEN, "")
    ensures !Completed(form, Some(0), updateFault) && ResetLog(level, form, Some(0), updateFault, ctx) == []
  {
  }

  /**
   * Only a completed reset redirects, flashes the success message and
   * consumes the tokens; a failed update leaves the error on the page.
   */
  lemma OnlyCompletedResetFlashes(st: SessionState, step: Step, form: ResetForm, verified: Option<int>,
                                  updateFault: Option<Throwable>, now: int)
    ensures Completed(form, verified, updateFault) ==>
              Lookup(ResetSession(st, form, verified, updateFault, now).attrs, FlashKey("success"), Null) == Value.Str(RESET_DONE) &&
              ResetResponse(form, verified, updateFault) == Redirect(BASE_URL + "login.php")
    ensures !Completed(form, verified, updateFault) ==>
              ResetSession(st, form, verified, updateFault, now) == st && ResetResponse(form, verified, updateFault) == Proceed
    ensures Precheck(form).None? && Accepted(verified) && updateFault.Some? ==>
              ResetView(step, form, verified, updateFault).error == REQUEST_FAILED
  {
  }

  /**
   * After a completed reset no token of the user is left, so a second
   * reset with the same token is turned away.
   */
  lemma ResetConsumesToken(rows: set<ResetRow>, form: ResetForm, sha: string -> string, now: int, userId: int,
                           result: Option<int>, after: set<ResetRow>)
    requires forall r :: r in rows && r.tokenHash == sha(form.token) ==> r.userId == userId
    requires VerifyOutcome(Without(rows, ByUser(userId)), sha(form.token), now, result, after)
    ensures !Accepted(result) && after == Without(rows, ByUser(userId))
  {
    ConsumedTokenFails(rows, userId, sha(form.token), now, result, after);
  }

  // ---------------------------------------------------------------------
  // The handler
  // ---------------------------------------------------------------------

  /** `updatePassword($userId, $password)`: true unless the database threw, with its log line. */
  method UpdatePassword(log: Logger, userId: int, updateFault: Option<Throwable>, ctx: Context) returns (ok: bool)
    modifies log
    ensures ok <==> updateFault.None?
    ensures log.level == old(log.level)
    ensures log.written == old(log.written) + UpdateLog(log.level, userId, updateFault, ctx)
  {
    if updateFault.Some? {
      log.Exception(updateFault.value, Some(userId), ctx);
      return false;
    }
    log.DataChange("users", "UPDATE_PASSWORD", userId, Some(userId), ctx);
    return true;
  }

  /** The "request" action for the trimmed username. */
  method RequestReset(log: Logger, table: PasswordResets, step: Step, username: string, users: string -> Option<UserRow>,
                      randomBytes: seq<Hex.Byte>, sha: string -> string, now: int, fault: Fault, ctx: Context)
    returns (view: PageView)
    requires |randomBytes| == 32
    modifies log, table
    ensures view == RequestView(step, RequestOutcomeOf(username, users, randomBytes, fault))
    ensures table.rows == RowsAfterRequest(old(table.rows), username, users, randomBytes, sha, now, fault)
    ensures log.level == old(log.level)
    ensures log.written == old(log.written) + RequestLog(log.level, username, users, fault, ctx)
  {
    if PhpEmpty(username) {
      return PageView(step, "Please enter your username.", "");
    }
    var user := users(username);
    if user.None? {
      return PageView(VerifyStep, "", GENERIC_NOTICE);
    }
    var token := table.Create(user.value.id, randomBytes, sha, now, fault, log, ctx);
    if token.Some? {
      return PageView(VerifyStep, "", TokenNotice(token.value));
    }
    return PageView(step, REQUEST_FAILED, "");
  }

  /**
   * The "reset" action. `verified` is what `verifyPasswordResetToken`
   * returned, `None` when the checks before it failed.
   */
  method CompleteReset(s: Session, log: Logger, table: PasswordResets, step: Step, form: ResetForm, sha: string -> string,
                       now: int, updateFault: Option<Throwable>, ctx: Context)
    returns (response: Response, view: PageView, verified: Option<int>)
    modifies s, log, table
    ensures Precheck(form).Some? ==> verified == None && table.rows == old(table.rows)
    ensures Precheck(form).None? ==>
              VerifyOutcome(old(table.rows), sha(form.token), now, verified,
                            if Completed(form, verified, updateFault) then old(table.rows) else table.rows)
    ensures Completed(form, verified, updateFault) ==> table.rows == Without(old(table.rows), ByUser(verified.value))
    ensures view == ResetView(step, form, verified, updateFault)
    ensures response == ResetResponse(form, verified, updateFault)
    ensures s.State() == ResetSession(old(s.State()), form, verified, updateFault, now)
    ensures log.level == old(log.level)
    ensures log.written == old(log.written) + ResetLog(log.level, form, verified, updateFault, ctx)
  {
    var v := new Validator();
    var _ := v.Password(form.password, "password");
    var errors := v.Errors();
    if form.password != form.confirm {
      errors := Put(errors, "password_confirm", MISMATCH);
    }
    assert errors == FormErrors(form);
    if PhpEmpty(form.token) {
      return Proceed, PageView(step, BAD_TOKEN, ""), None;
    }
    if errors != [] {
      return Proceed, PageView(step, Implode(" ", errors), ""), None;
    }
    verified := table.Verify(form.token, sha, now);
    if !(verified.Some? && verified.value != 0) {
      return Proceed, PageView(step, EXPIRED_TOKEN, ""), verified;
    }
    var userId := verified.value;
    ghost var checked := table.rows;
    var updated := UpdatePassword(log, userId, updateFault, ctx);
    if !updated {
      return Proceed, PageView(step, REQUEST_FAILED, ""), verified;
    }
    table.DeleteByUserId(userId);
    log.Info("Password reset completed", Some(userId), ctx);
    s.Flash("success", RESET_DONE, now);
    return Redirect(BASE_URL + "login.php"), PageView(step, "", ""), verified;
  }

  /** The submitted action: `$_POST['action'] ?? ''`, with the fields each one reads. */
  datatype Action = RequestAction(username: string) | ResetAction(form: ResetForm) | OtherAction

  function ActionOf(post: map<string, string>): Action {
    var action := PostField(post, "action");
    if action == "request" then RequestAction(Trim(PostField(post, "username")))
    else if action == "reset" then
      ResetAction(ResetForm(PostField(post, "token"), PostField(post, "password"), PostField(post, "password_confirm")))
    else OtherAction
  }

  /**
   * What carrying out `action` does, from the session, table and log
   * before it (`st`, `rows`, `written`) to those after it (`st'`,
   * `rows'`, `written'`), with the page's response and variables.
   */
  ghost predicate ActionEffect(action: Action, step: Step, users: string -> Option<UserRow>, randomBytes: seq<Hex.Byte>,
                               sha: string -> string, now: int, fault: Fault, updateFault: Option<Throwable>,
                               level: Level, ctx: Context,
                               st: SessionState, rows: set<ResetRow>, written: seq<LogEntry>,
                               st': SessionState, rows': set<ResetRow>, written': seq<LogEntry>,
                               response: Response, view: PageView, verified: Option<int>)
    requires |randomBytes| == 32
  {
    match action
    case RequestAction(username) =>
      response == Proceed && st' == st &&
      view == RequestView(step, RequestOutcomeOf(username, users, randomBytes, fault)) &&
      rows' == RowsAfterRequest(rows, username, users, randomBytes, sha, now, fault) &&
      written' == written + RequestLog(level, username, users, fault, ctx)
    case ResetAction(form) =>
      (Precheck(form).Some? ==> verified == None && rows' == rows) &&
      (Precheck(form).None? ==>
         VerifyOutcome(rows, sha(form.token), now, verified, if Completed(form, verified, updateFault) then rows else rows')) &&
      (Completed(form, verified, updateFault) ==> rows' == Without(rows, ByUser(verified.value))) &&
      view == ResetView(step, form, verified, updateFault) &&
      response == ResetResponse(form, verified, updateFault) &&
      st' == ResetSession(st, form, verified, updateFault, now) &&
      written' == written + ResetLog(level, form, verified, updateFault, ctx)
    case OtherAction =>
      response == Proceed && view == PageView(step, "", "") && st' == st && rows' == rows && written' == written
  }

  /**
   * A POST to the page, after `Auth::requireGuest()`: CSRF first, then the
   * action. `queryToken` is `$_GET['token'] ?? ''`.
   */
  method HandlePost(s: Session, log: Logger, table: PasswordResets, queryToken: string, post: map<string, string>,
                    users: string -> Option<UserRow>, randomBytes: seq<Hex.Byte>, sha: string -> string, now: int,
                    fault: Fault, updateFault: Option<Throwable>, ctx: Context)
    returns (response: Response, view: PageView, verified: Option<int>)
    requires |randomBytes| == 32
    modifies s, log, table
    ensures var current := AfterStart(old(s.State()), now);
            !CsrfMatches(current.attrs, SubmittedToken(post)) ==>
              response == Abort(403, CSRF_FAILURE_PAGE) && table.rows == old(table.rows) && s.State() == current &&
              log.written == old(log.written) + Emit(log.level, Level.Warning, "CSRF validation failed", None, ctx)
    ensures var current := AfterStart(old(s.State()), now);
            CsrfMatches(current.attrs, SubmittedToken(post)) ==>
              ActionEffect(ActionOf(post), InitialStep(queryToken), users, randomBytes, sha, now, fault, updateFault, log.level, ctx,
                           current, old(table.rows), old(log.written), s.State(), table.rows, log.written,
                           response, view, verified)
    ensures log.level == old(log.level)
  {
    var step := InitialStep(queryToken);
    view, verified := PageView(step, "", ""), None;
    response := RequireCsrf(s, log, post, now, ctx);
    if response.Abort? {
      return;
    }
    assert log.written == old(log.written) && table.rows == old(table.rows);
    assert s.State() == AfterStart(old(s.State()), now);
    var submitted := ActionOf(post);
    response, view, verified := Dispatch(s, log, table, step, submitted, users, randomBytes, sha, now, fault, updateFault, ctx);
  }

  /** The `if`/`elseif` on the action. */
  method Dispatch(s: Session, log: Logger, table: PasswordResets, step: Step, action: Action,
                  users: string -> Option<UserRow>, randomBytes: seq<Hex.Byte>, sha: string -> string, now: int,
                  fault: Fault, updateFault: Option<Throwable>, ctx: Context)
    returns (response: Response, view: PageView, verified: Option<int>)
    requires |randomBytes| == 32
    modifies s, log, table
    ensures ActionEffect(action, step, users, randomBytes, sha, now, fault, updateFault, log.level, ctx,
                         old(s.State()), old(table.rows), old(log.written), s.State(), table.rows, log.written,
                         response, view, verified)
    ensures log.level == old(log.level)
  {
    response, view, verified := Proceed, PageView(step, "", ""), None;
    match action
    case RequestAction(username) =>
      view := RequestReset(log, table, step, username, users, randomBytes, sha, now, fault, ctx);
    case ResetAction(form) =>
      response, view, verified := CompleteReset(s, log, table, step, form, sha, now, updateFault, ctx);
    case OtherAction =>
  }
}
