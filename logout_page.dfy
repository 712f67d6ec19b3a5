/**
 * public/logout.php: log the logout when a user is logged in, then destroy
 * the session, start a fresh one and leave a flash message on it.
 */
module LogoutPage {
  import opened Wrappers
  import opened Config
  import opened Sessions
  import opened Logging
  import opened Auth

  const LOGGED_OUT := "You have been logged out."

  /**
   * `getUserId()` is declared `?int`: the value under `user_id` is an
   * integer or absent.
   */
  predicate UserIdIsInt(attrs: map<string, Value>) {
    var v := Lookup(attrs, USER_ID, Null);
    v.Null? || v.Int?
  }

  /** The user id the handler logs: a non-zero id is truthy in PHP, 0 and null are not. */
  function LoggedUser(st: SessionState, now: int): (user: Option<int>)
    ensures user.Some? <==> exists i :: i != 0 && Lookup(AfterStart(st, now).attrs, USER_ID, Null) == Int(i)
    ensures user.Some? ==> Lookup(AfterStart(st, now).attrs, USER_ID, Null) == Int(user.value)
  {
    match Lookup(AfterStart(st, now).attrs, USER_ID, Null)
    case Int(i) => if i != 0 then Some(i) else None
    case _ => None
  }

  /** The session the handler leaves. */
  function LoggedOutState(st: SessionState, now: int): SessionState {
    AfterSet(AfterStart(AfterDestroy(AfterStart(st, now)), now), FlashKey("success"), Str(LOGGED_OUT), now)
  }

  function LogoutLog(level: Level, st: SessionState, now: int, ctx: Context): seq<LogEntry> {
    match LoggedUser(st, now)
    case Some(user) => Emit(level, Level.Info, "User logged out", Some(user), ctx)
    case None => []
  }

  /**
   * Whatever the session held, afterwards it holds only the activity stamp
   * and the flash message, under an identifier it did not have before: no
   * user, no CSRF token, no throttle record.
   */
  lemma LogoutClearsEverything(st: SessionState, now: int)
    requires WellFormed(st)
    ensures var after := LoggedOutState(st, now);
            after.attrs == map[LAST_ACTIVITY := Int(now), FlashKey("success") := Str(LOGGED_OUT)] &&
            after.started && after.id.Some? && after.id != AfterStart(st, now).id &&
            !IsSet(after.attrs, USER_ID) && !IsSet(after.attrs, CSRF_TOKEN_NAME)
  {
    var current := AfterStart(st, now);
    assert AfterStart(AfterDestroy(current), now).id.value >= current.nextId;
    assert "flash_success" != LAST_ACTIVITY;
    assert "flash_success" != USER_ID;
    assert "flash_success" != CSRF_TOKEN_NAME;
  }

  /** The logout line is written exactly when a logged-in user logs out. */
  lemma LogoutIsLoggedOnlyForUsers(level: Level, st: SessionState, now: int, ctx: Context)
    ensures LoggedUser(st, now).None? ==> LogoutLog(level, st, now, ctx) == []
    ensures LoggedUser(st, now).Some? ==>
              |LogoutLog(level, st, now, ctx)| == (if ShouldLog(Level.Info, level) then 1 else 0)
  {
    if LoggedUser(st, now).Some? {
      assert LogoutLog(level, st, now, ctx) == Emit(level, Level.Info, "User logged out", LoggedUser(st, now), ctx);
    }
  }

  method HandleLogout(s: Session, log: Logger, now: int, ctx: Context) returns (response: Response)
    requires UserIdIsInt(AfterStart(s.State(), now).attrs)
    modifies s, log
    ensures s.State() == LoggedOutState(old(s.State()), now)
    ensures log.level == old(log.level)
    ensures log.written == old(log.written) + LogoutLog(log.level, old(s.State()), now, ctx)
    ensures response == Redirect(BASE_URL + "login.php")
  {
    var userId := s.GetUserId(now);
    if userId.Int? && userId.i != 0 {
      log.Logout(userId.i, ctx);
    }
    s.Destroy();
    s.Start(now);
    s.Flash("success", LOGGED_OUT, now);
    return Redirect(BASE_URL + "login.php");
  }
}
