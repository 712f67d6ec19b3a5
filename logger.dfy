/**
 * app/utils/Logger.php: a process-wide minimum level, a level filter, a
 * line format, masking of e-mail addresses and passwords, and routing of
 * each level to a log file.
 *
 * The static `$currentLevel` becomes the `level` field of a `Logger`
 * object, and appending a line to a file becomes appending a `LogEntry`
 * to `written`; the entry records what was logged, and `Line` is the text
 * that goes into the file, masked and formatted. The time stamp (`date('Y-m-d H:i:s')`) and the remote
 * address come in through a `Context`.
 */
module Logging {
  import opened Wrappers
  import opened Text

  datatype Level = Debug | Info | Warning | Error

  /** The numbers of `Logger::LEVELS`. */
  function Rank(level: Level): nat {
    match level
    case Debug => 0
    case Info => 1
    case Warning => 2
    case Error => 3
  }

  /** The keys of `Logger::LEVELS`. */
  function LevelName(level: Level): string {
    match level
    case Debug => "DEBUG"
    case Info => "INFO"
    case Warning => "WARNING"
    case Error => "ERROR"
  }

  /** `isset(self::LEVELS[strtoupper($level)])`, with the level it names. */
  function ParseLevel(name: string): (r: Option<Level>)
    ensures r.Some? ==> LevelName(r.value) == Upper(name)
    ensures r.None? ==> forall l: Level :: LevelName(l) != Upper(name)
  {
    var upper := Upper(name);
    if upper == "DEBUG" then Some(Debug)
    else if upper == "INFO" then Some(Info)
    else if upper == "WARNING" then Some(Warning)
    else if upper == "ERROR" then Some(Error)
    else None
  }

  /** The level after `setLevel($name)`: a recognised name in any case, else unchanged. */
  function LevelAfterSet(current: Level, name: string): Level {
    ParseLevel(name).GetOr(current)
  }

  /** `shouldLog($level)`. */
  predicate ShouldLog(level: Level, current: Level) {
    Rank(level) >= Rank(current)
  }

  datatype LogFile = DebugLog | AccessLog | ErrorLog

  function FileName(f: LogFile): string {
    match f
    case DebugLog => "debug.log"
    case AccessLog => "access.log"
    case ErrorLog => "error.log"
  }

  /** The file each of `debug`, `info`, `warning`, `error` writes to. */
  function FileFor(level: Level): LogFile {
    match level
    case Debug => DebugLog
    case Info => AccessLog
    case Warning => ErrorLog
    case Error => ErrorLog
  }

  /** What `formatMessage` reads from its surroundings: the time stamp and `$_SERVER['REMOTE_ADDR']`. */
  datatype Context = Context(timestamp: string, remoteAddr: Option<string>)

  function UserField(userId: Option<int>): string {
    match userId
    case Some(u) => IntToDecimal(u)
    case None => "-"
  }

  /** `sprintf("[%s] [%s] [%s] [%s] %s\n", …)` of `formatMessage`. */
  function FormatMessage(level: Level, message: string, userId: Option<int>, ctx: Context): string {
    "[" + ctx.timestamp + "] [" + LevelName(level) + "] [" + UserField(userId) + "] ["
      + ctx.remoteAddr.GetOr("CLI") + "] " + message + "\n"
  }

  /** One call that passed the level filter: where it goes and what it carries. */
  datatype LogEntry = LogEntry(file: LogFile, level: Level, message: string, userId: Option<int>, ctx: Context)

  // ---------------------------------------------------------------------
  // maskSensitive: the two preg_replace calls, matched as PCRE matches them
  // ---------------------------------------------------------------------

  /** `[a-zA-Z0-9._%+-]`, the local part of an address. */
  predicate IsLocalChar(c: char) {
    IsAsciiLetter(c) || IsDigit(c) || c == '.' || c == '_' || c == '%' || c == '+' || c == '-'
  }

  /** `[a-zA-Z0-9.-]`, the domain of an address. */
  predicate IsDomainChar(c: char) {
    IsAsciiLetter(c) || IsDigit(c) || c == '.' || c == '-'
  }

  /** The end of the longest run of local-part characters starting at `i`. */
  function LocalRunEnd(s: string, i: nat): (r: nat)
    requires i <= |s|
    ensures i <= r <= |s|
    ensures forall k :: i <= k < r ==> IsLocalChar(s[k])
    ensures r < |s| ==> !IsLocalChar(s[r])
    decreases |s| - i
  {
    if i < |s| && IsLocalChar(s[i]) then LocalRunEnd(s, i + 1) else i
  }

  /** The end of the longest run of domain characters starting at `i`. */
  function DomainRunEnd(s: string, i: nat): (r: nat)
    requires i <= |s|
    ensures i <= r <= |s|
    ensures forall k :: i <= k < r ==> IsDomainChar(s[k])
    ensures r < |s| ==> !IsDomainChar(s[r])
    decreases |s| - i
  {
    if i < |s| && IsDomainChar(s[i]) then DomainRunEnd(s, i + 1) else i
  }

  /** The end of the longest run of ASCII letters starting at `i`. */
  function LetterRunEnd(s: string, i: nat): (r: nat)
    requires i <= |s|
    ensures i <= r <= |s|
    ensures forall k :: i <= k < r ==> IsAsciiLetter(s[k])
    ensures r < |s| ==> !IsAsciiLetter(s[r])
    decreases |s| - i
  {
    if i < |s| && IsAsciiLetter(s[i]) then LetterRunEnd(s, i + 1) else i
  }

  /** A dot at `m` followed by two letters: where `\.[a-zA-Z]{2,}` can start. */
  predicate TldDotAt(s: string, m: nat) {
    m + 2 < |s| && s[m] == '.' && IsAsciiLetter(s[m + 1]) && IsAsciiLetter(s[m + 2])
  }

  /**
   * Backtracking of the greedy `[a-zA-Z0-9.-]+` that starts at `d`: the
   * last position `m <= top`, `m > d`, where the rest of the pattern can go on.
   */
  function TldDotFrom(s: string, d: nat, top: nat): (r: Option<nat>)
    ensures r.Some? ==> d < r.value <= top && TldDotAt(s, r.value)
    ensures r.Some? ==> forall q :: r.value < q <= top ==> !TldDotAt(s, q)
    ensures r.None? ==> forall q :: d < q <= top ==> !TldDotAt(s, q)
    decreases top
  {
    if top <= d then None
    else if TldDotAt(s, top) then Some(top)
    else TldDotFrom(s, d, top - 1)
  }

  /**
   * The match of `([a-zA-Z0-9._%+-]+)@([a-zA-Z0-9.-]+\.[a-zA-Z]{2,})` that
   * starts at `i`, as the start of group 2 and the end of the match.
   */
  function EmailMatchAt(s: string, i: nat): (r: Option<(nat, nat)>)
    requires i <= |s|
    ensures r.Some? ==> i < r.value.0 <= r.value.1 <= |s|
  {
    var j := LocalRunEnd(s, i);
    if j == i || j == |s| || s[j] != '@' then None
    else
      var d := j + 1;
      var k := DomainRunEnd(s, d);
      if k <= d then None
      else
        match TldDotFrom(s, d, k - 1)
        case None => None
        case Some(m) => Some((d, LetterRunEnd(s, m + 1)))
  }

  /** `preg_replace` of every address from position `p` on by `***@$2`. */
  function MaskEmailsFrom(s: string, p: nat): string
    requires p <= |s|
    decreases |s| - p
  {
    if p == |s| then ""
    else
      match EmailMatchAt(s, p)
      case Some((d, e)) => "***@" + s[d..e] + MaskEmailsFrom(s, e)
      case None => [s[p]] + MaskEmailsFrom(s, p + 1)
  }

  function MaskEmails(s: string): string {
    MaskEmailsFrom(s, 0)
  }

  predicate IsQuote(c: char) { c == '"' || c == '\'' }

  /** `[^"'}\s]`, a character of the masked value. */
  predicate IsSecretChar(c: char) { !IsQuote(c) && c != '}' && !IsRegexSpace(c) }

  function SpaceRunEnd(s: string, i: nat): (r: nat)
    requires i <= |s|
    ensures i <= r <= |s|
    ensures forall k :: i <= k < r ==> IsRegexSpace(s[k])
    ensures r < |s| ==> !IsRegexSpace(s[r])
    decreases |s| - i
  {
    if i < |s| && IsRegexSpace(s[i]) then SpaceRunEnd(s, i + 1) else i
  }

  function SecretRunEnd(s: string, i: nat): (r: nat)
    requires i <= |s|
    ensures i <= r <= |s|
    ensures forall k :: i <= k < r ==> IsSecretChar(s[k])
    ensures r < |s| ==> !IsSecretChar(s[r])
    decreases |s| - i
  {
    if i < |s| && IsSecretChar(s[i]) then SecretRunEnd(s, i + 1) else i
  }

  /** The end of a match of `/password["']?\s*[:=]\s*["']?[^"'}\s]+/i` starting at `i`. */
  function PasswordMatchAt(s: string, i: nat): (r: Option<nat>)
    requires i <= |s|
    ensures r.Some? ==> i < r.value <= |s|
  {
    if |s| - i < 8 || Lower(s[i..i + 8]) != "password" then None
    else
      var q := if i + 8 < |s| && IsQuote(s[i + 8]) then i + 9 else i + 8;
      var c := SpaceRunEnd(s, q);
      if c == |s| || (s[c] != ':' && s[c] != '=') then None
      else
        var w := SpaceRunEnd(s, c + 1);
        var v := if w < |s| && IsQuote(s[w]) then w + 1 else w;
        var e := SecretRunEnd(s, v);
        if e == v then None else Some(e)
  }

  /** `preg_replace` of every such match from position `p` on by `password=***MASKED***`. */
  function MaskPasswordsFrom(s: string, p: nat): string
    requires p <= |s|
    decreases |s| - p
  {
    if p == |s| then ""
    else
      match PasswordMatchAt(s, p)
      case Some(e) => "password=***MASKED***" + MaskPasswordsFrom(s, e)
      case None => [s[p]] + MaskPasswordsFrom(s, p + 1)
  }

  /** `maskSensitive`: addresses first, then passwords. */
  function MaskSensitive(message: string): string {
    MaskPasswordsFrom(MaskEmails(message), 0)
  }

  /** The text an entry appends to its file: the masked message in the line format. */
  function Line(e: LogEntry): string {
    FormatMessage(e.level, MaskSensitive(e.message), e.userId, e.ctx)
  }

  /** What one call of `debug`/`info`/`warning`/`error` appends. */
  function Emit(current: Level, level: Level, message: string, userId: Option<int>, ctx: Context): (entries: seq<LogEntry>)
    ensures |entries| <= 1
    ensures entries != [] <==> ShouldLog(level, current)
    ensures entries != [] ==> entries[0].file == FileFor(level)
  {
    if ShouldLog(level, current) then [LogEntry(FileFor(level), level, message, userId, ctx)]
    else []
  }

  /** The parts of an exception `exception()` formats. */
  datatype Throwable = Throwable(className: string, message: string, file: string, line: int, trace: string)

  function ExceptionMessage(e: Throwable): string {
    e.className + ": " + e.message + " in " + e.file + ":" + IntToDecimal(e.line) + "\nStack trace:\n" + e.trace
  }

  function LoginAttemptMessage(username: string, success: bool): string {
    "Login attempt for user '" + username + "': " + (if success then "SUCCESS" else "FAILED")
  }

  /** The message `dataChange` logs. */
  function DataChangeMessage(table: string, action: string, recordId: int): string {
    "Data change: " + action + " on " + table + " (ID: " + IntToDecimal(recordId) + ")"
  }

  // ---------------------------------------------------------------------
  // Properties of the logger
  // ---------------------------------------------------------------------

  /** `setLevel` accepts exactly the four names, in any letter case; anything else keeps the level. */
  lemma SetLevelAcceptsLevelNames(current: Level, name: string)
    ensures (exists l: Level :: LevelName(l) == Upper(name)) ==> LevelName(LevelAfterSet(current, name)) == Upper(name)
    ensures (forall l: Level :: LevelName(l) != Upper(name)) ==> LevelAfterSet(current, name) == current
  {
  }

  /** Lower-case names are accepted: `setLevel('warning')` selects WARNING. */
  lemma SetLevelIgnoresCase(current: Level)
    ensures LevelAfterSet(current, "warning") == Warning
    ensures LevelAfterSet(current, "Error") == Error
  {
    UpperIs("warning", "WARNING");
    UpperIs("Error", "ERROR");
  }

  /** A name that is no level, in any letter case, leaves the level as it was. */
  lemma SetLevelKeepsOnUnknown(current: Level)
    ensures LevelAfterSet(current, "verbose") == current
  {
    UpperIs("verbose", "VERBOSE");
  }

  /** The ranks order the levels strictly, so the filter is a threshold. */
  lemma FilterIsThreshold(level: Level, current: Level)
    ensures ShouldLog(level, current) <==> Rank(level) >= Rank(current)
    ensures ShouldLog(Error, current)
    ensures ShouldLog(level, Debug)
    ensures ShouldLog(level, current) && Rank(level) < 3 ==> ShouldLog(Error, current)
    ensures forall a: Level, b: Level :: Rank(a) == Rank(b) ==> a == b
  {
  }

  /** Debug goes to debug.log, info to access.log, warnings and errors to error.log. */
  lemma Routing()
    ensures FileName(FileFor(Debug)) == "debug.log"
    ensures FileName(FileFor(Info)) == "access.log"
    ensures FileName(FileFor(Warning)) == "error.log" && FileName(FileFor(Error)) == "error.log"
  {
  }

  /** A line opens with the stamp and the level name and closes with the message and a newline. */
  lemma {:induction false} LineShape(level: Level, message: string, userId: Option<int>, ctx: Context)
    ensures var line := FormatMessage(level, message, userId, ctx);
            var head := "[" + ctx.timestamp + "] [" + LevelName(level) + "] [";
            var tail := message + "\n";
            |head| + |tail| <= |line| && line[..|head|] == head && line[|line| - |tail|..] == tail
    ensures UserField(userId) == "-" <==> userId.None?
  {
    var line := FormatMessage(level, message, userId, ctx);
    var head := "[" + ctx.timestamp + "] [" + LevelName(level) + "] [";
    var middle := UserField(userId) + "] [" + ctx.remoteAddr.GetOr("CLI") + "] ";
    assert line == head + middle + (message + "\n");
    if userId.Some? {
      assert UserField(userId)[0] == '-' ==> userId.value < 0;
    }
  }

  /** Text without `@` has no address to mask. */
  lemma {:induction false} NoAtSignNoEmailMask(s: string, p: nat)
    requires p <= |s|
    requires forall k :: p <= k < |s| ==> s[k] != '@'
    ensures MaskEmailsFrom(s, p) == s[p..]
    decreases |s| - p
  {
    if p < |s| {
      assert EmailMatchAt(s, p).None?;
      NoAtSignNoEmailMask(s, p + 1);
      assert s[p..] == [s[p]] + s[p + 1..];
    }
  }

  /**
   * Text `s[p..stop]` without `@` whose last character cannot end a local
   * part is copied unchanged: every local-part run in it stops before an `@`.
   */
  lemma {:induction false} EmailMaskCopiesPrefix(s: string, p: nat, stop: nat)
    requires p <= stop <= |s|
    requires forall k :: p <= k < stop ==> s[k] != '@'
    requires p < stop ==> !IsLocalChar(s[stop - 1])
    ensures MaskEmailsFrom(s, p) == s[p..stop] + MaskEmailsFrom(s, stop)
    decreases stop - p
  {
    if p < stop {
      EmailMaskCopiesPrefix(s, p + 1, stop);
      EmailMaskCopiesOne(s, p, stop, MaskEmailsFrom(s, stop));
    }
  }

  lemma EmailMaskCopiesOne(s: string, p: nat, stop: nat, rest: string)
    requires p < stop <= |s|
    requires forall k :: p <= k < stop ==> s[k] != '@'
    requires !IsLocalChar(s[stop - 1])
    requires MaskEmailsFrom(s, p + 1) == s[p + 1..stop] + rest
    ensures MaskEmailsFrom(s, p) == s[p..stop] + rest
  {
    NoEmailMatchBeforeBarrier(s, p, stop);
    EmailMaskStep(s, p);
    ConsSlice(s, p, stop, rest);
  }

  lemma ConsSlice(s: string, p: nat, stop: nat, rest: string)
    requires p < stop <= |s|
    ensures [s[p]] + (s[p + 1..stop] + rest) == s[p..stop] + rest
  {
    assert s[p..stop] == [s[p]] + s[p + 1..stop];
  }

  lemma NoEmailMatchBeforeBarrier(s: string, p: nat, stop: nat)
    requires p < stop <= |s|
    requires forall k :: p <= k < stop ==> s[k] != '@'
    requires !IsLocalChar(s[stop - 1])
    ensures EmailMatchAt(s, p).None?
  {
    var r := LocalRunEnd(s, p);
    assert r < stop;
  }

  /** One step of the replacement scan, with the match at `p` left unexpanded. */
  lemma EmailMaskStep(s: string, p: nat)
    requires p < |s|
    ensures EmailMatchAt(s, p).None? ==> MaskEmailsFrom(s, p) == [s[p]] + MaskEmailsFrom(s, p + 1)
    ensures EmailMatchAt(s, p).Some? ==>
              var (d, e) := EmailMatchAt(s, p).value; MaskEmailsFrom(s, p) == "***@" + s[d..e] + MaskEmailsFrom(s, e)
  {
  }

  /**
   * An address occupying `s[a..k]`, local part `s[a..j]`, `@` at `j`, the
   * last dot of the domain at `dot`, set off by characters that cannot
   * belong to it, loses its local part and keeps its domain; the text
   * around it has no other `@` and is kept as it is.
   */
  lemma EmailLocalPartMasked(s: string, a: nat, j: nat, dot: nat, k: nat)
    requires a < j && j + 1 < dot && dot + 2 < k <= |s|
    requires forall q :: 0 <= q < a ==> s[q] != '@'
    requires 0 < a ==> !IsLocalChar(s[a - 1])
    requires forall q :: a <= q < j ==> IsLocalChar(s[q])
    requires s[j] == '@'
    requires forall q :: j < q < dot ==> IsDomainChar(s[q])
    requires s[dot] == '.'
    requires forall q :: dot < q < k ==> IsAsciiLetter(s[q])
    requires k < |s| ==> !IsDomainChar(s[k])
    requires forall q :: k <= q < |s| ==> s[q] != '@'
    ensures MaskEmails(s) == s[..a] + "***@" + s[j + 1..k] + s[k..]
  {
    EmailMaskCopiesPrefix(s, 0, a);
    MaskFromAddress(s, a, j, dot, k);
    Reassemble(s[..a], s[0..a], "***@", s[j + 1..k], s[k..]);
  }

  /** The scan from the start of such an address onwards. */
  lemma MaskFromAddress(s: string, a: nat, j: nat, dot: nat, k: nat)
    requires a < j && j + 1 < dot && dot + 2 < k <= |s|
    requires forall q :: a <= q < j ==> IsLocalChar(s[q])
    requires s[j] == '@'
    requires forall q :: j < q < dot ==> IsDomainChar(s[q])
    requires s[dot] == '.'
    requires forall q :: dot < q < k ==> IsAsciiLetter(s[q])
    requires k < |s| ==> !IsDomainChar(s[k])
    requires forall q :: k <= q < |s| ==> s[q] != '@'
    ensures MaskEmailsFrom(s, a) == "***@" + s[j + 1..k] + s[k..]
  {
    EmailMatchAtAddress(s, a, j, dot, k);
    EmailMaskStep(s, a);
    NoAtSignNoEmailMask(s, k);
  }

  lemma Reassemble(pre: string, pre': string, mark: string, domain: string, post: string)
    requires pre == pre'
    ensures pre' + (mark + domain + post) == pre + mark + domain + post
  {
  }

  /** The match at the start of such an address: group 2 runs from after the `@` to the end of the tld. */
  lemma EmailMatchAtAddress(s: string, a: nat, j: nat, dot: nat, k: nat)
    requires a < j && j + 1 < dot && dot + 2 < k <= |s|
    requires forall q :: a <= q < j ==> IsLocalChar(s[q])
    requires s[j] == '@'
    requires forall q :: j < q < dot ==> IsDomainChar(s[q])
    requires s[dot] == '.'
    requires forall q :: dot < q < k ==> IsAsciiLetter(s[q])
    requires k < |s| ==> !IsDomainChar(s[k])
    ensures EmailMatchAt(s, a) == Some((j + 1, k))
  {
    LocalRunEndIs(s, a, j);
    DomainRunEndIs(s, j + 1, k);
    TldDotIsLast(s, j + 1, dot, k - 1);
    LetterRunEndIs(s, dot + 1, k);
  }

  lemma {:induction false} TldDotIsLast(s: string, d: nat, dot: nat, top: nat)
    requires d < dot <= top < |s| && TldDotAt(s, dot)
    requires forall q :: dot < q <= top ==> IsAsciiLetter(s[q])
    ensures TldDotFrom(s, d, top) == Some(dot)
    decreases top
  {
    if top > dot {
      TldDotIsLast(s, d, dot, top - 1);
    }
  }

  lemma {:induction false} LocalRunEndIs(s: string, i: nat, e: nat)
    requires i <= e <= |s|
    requires forall q :: i <= q < e ==> IsLocalChar(s[q])
    requires e < |s| ==> !IsLocalChar(s[e])
    ensures LocalRunEnd(s, i) == e
    decreases e - i
  {
    if i < e { LocalRunEndIs(s, i + 1, e); }
  }

  lemma {:induction false} DomainRunEndIs(s: string, i: nat, e: nat)
    requires i <= e <= |s|
    requires forall q :: i <= q < e ==> IsDomainChar(s[q])
    requires e < |s| ==> !IsDomainChar(s[e])
    ensures DomainRunEnd(s, i) == e
    decreases e - i
  {
    if i < e { DomainRunEndIs(s, i + 1, e); }
  }

  lemma {:induction false} LetterRunEndIs(s: string, i: nat, e: nat)
    requires i <= e <= |s|
    requires forall q :: i <= q < e ==> IsAsciiLetter(s[q])
    requires e < |s| ==> !IsAsciiLetter(s[e])
    ensures LetterRunEnd(s, i) == e
    decreases e - i
  {
    if i < e { LetterRunEndIs(s, i + 1, e); }
  }

  /** `password=hunter2` is masked whole. */
  lemma PasswordAssignmentMasked()
    ensures MaskPasswordsFrom("password=hunter2", 0) == "password=***MASKED***"
  {
    var s := "password=hunter2";
    PasswordAssignmentMatches();
    assert MaskPasswordsFrom(s, 16) == "";
  }

  /**
   * `password`, in any case, then `=` or `:` and a value without quotes,
   * spaces or `}`: the match runs to the end of the value.
   */
  lemma AssignmentMatch(s: string, i: nat, e: nat)
    requires PasswordWordAt(s, i)
    requires i + 9 < e <= |s| && (s[i + 8] == '=' || s[i + 8] == ':')
    requires forall q :: i + 9 <= q < e ==> IsSecretChar(s[q])
    requires e < |s| ==> !IsSecretChar(s[e])
    ensures PasswordMatchAt(s, i) == Some(e)
  {
    assert SpaceRunEnd(s, i + 8) == i + 8;
    assert SpaceRunEnd(s, i + 9) == i + 9;
    SecretRunEndIs(s, i + 9, e);
  }

  lemma PasswordAssignmentMatches()
    ensures PasswordMatchAt("password=hunter2", 0) == Some(16)
  {
    AssignmentExampleParts();
    AssignmentMatch("password=hunter2", 0, 16);
  }

  lemma AssignmentExampleParts()
    ensures PasswordWordAt("password=hunter2", 0)
    ensures forall q :: 9 <= q < 16 ==> IsSecretChar("password=hunter2"[q])
  {
    var s := "password=hunter2";
    assert s[0..8] == "password";
    LowerOfLower("password");
  }

  /**
   * `password`, in any case, then `:`, one space and a quoted value: the
   * opening quote is consumed and the match runs to the closing one.
   */
  lemma QuotedValueMatch(s: string, i: nat, e: nat)
    requires PasswordWordAt(s, i)
    requires i + 11 < e <= |s| && s[i + 8] == ':' && s[i + 9] == ' ' && IsQuote(s[i + 10])
    requires forall q :: i + 11 <= q < e ==> IsSecretChar(s[q])
    requires e < |s| ==> !IsSecretChar(s[e])
    ensures PasswordMatchAt(s, i) == Some(e)
  {
    assert SpaceRunEnd(s, i + 8) == i + 8;
    assert SpaceRunEnd(s, i + 9) == i + 10 by { assert SpaceRunEnd(s, i + 10) == i + 10; }
    SecretRunEndIs(s, i + 11, e);
  }

  /** In `Password: "hunter2"` the word matches in either case and the value's opening quote is consumed. */
  lemma QuotedPasswordMatches()
    ensures PasswordMatchAt("Password: \"hunter2\"", 0) == Some(18)
  {
    QuotedExampleParts();
    QuotedValueMatch("Password: \"hunter2\"", 0, 18);
  }

  lemma QuotedExampleParts()
    ensures PasswordWordAt("Password: \"hunter2\"", 0)
    ensures forall q :: 11 <= q < 18 ==> IsSecretChar("Password: \"hunter2\""[q])
    ensures !IsSecretChar("Password: \"hunter2\""[18])
  {
    var s := "Password: \"hunter2\"";
    assert s[0..8] == "Password";
    LowerIs("Password", "password");
  }

  lemma LowerOfLower(s: string)
    requires forall k :: 0 <= k < |s| ==> 'a' <= s[k] <= 'z'
    ensures Lower(s) == s
  {
  }

  predicate PasswordWordAt(s: string, k: nat) {
    k + 8 <= |s| && Lower(s[k..k + 8]) == "password"
  }

  /** Text in which `password` never occurs, in any case, keeps all its characters. */
  lemma {:induction false} NoPasswordWordUnchanged(s: string, p: nat)
    requires p <= |s|
    requires forall k :: p <= k ==> !PasswordWordAt(s, k)
    ensures MaskPasswordsFrom(s, p) == s[p..]
    decreases |s| - p
  {
    if p < |s| {
      assert !PasswordWordAt(s, p);
      assert PasswordMatchAt(s, p).None?;
      assert MaskPasswordsFrom(s, p) == [s[p]] + MaskPasswordsFrom(s, p + 1);
      NoPasswordWordUnchanged(s, p + 1);
      ConsSlice(s, p, |s|, "");
      assert s[p..|s|] + "" == s[p..];
    }
  }
  /**
   * A message with no `@` and no `password` in any letter case reaches the
   * file unchanged, in the line format of its level.
   */
  lemma PlainMessageLoggedVerbatim(current: Level, level: Level, message: string, userId: Option<int>, ctx: Context)
    requires forall k :: 0 <= k < |message| ==> message[k] != '@'
    requires forall k :: 0 <= k ==> !PasswordWordAt(message, k)
    ensures var entries := Emit(current, level, message, userId, ctx);
            entries != [] ==> Line(entries[0]) == FormatMessage(level, message, userId, ctx)
  {
    NoAtSignNoEmailMask(message, 0);
    assert MaskEmails(message) == message;
    NoPasswordWordUnchanged(message, 0);
  }


  lemma {:induction false} SecretRunEndIs(s: string, i: nat, e: nat)
    requires i <= e <= |s|
    requires forall q :: i <= q < e ==> IsSecretChar(s[q])
    requires e < |s| ==> !IsSecretChar(s[e])
    ensures SecretRunEnd(s, i) == e
    decreases e - i
  {
    if i < e { SecretRunEndIs(s, i + 1, e); }
  }

  // ---------------------------------------------------------------------
  // The logger object
  // ---------------------------------------------------------------------

  class Logger {
    var level: Level
    var written: seq<LogEntry>

    /** The static default `$currentLevel = 'DEBUG'`, before anything is logged. */
    constructor ()
      ensures level == Level.Debug && written == []
    {
      level := Level.Debug;
      written := [];
    }

    method SetLevel(name: string)
      modifies this
      ensures level == LevelAfterSet(old(level), name)
      ensures written == old(written)
    {
      var parsed := ParseLevel(name);
      if parsed.Some? {
        level := parsed.value;
      }
    }

    method Debug(message: string, userId: Option<int>, ctx: Context)
      modifies this
      ensures level == old(level)
      ensures written == old(written) + Emit(level, Level.Debug, message, userId, ctx)
    {
      if !ShouldLog(Level.Debug, level) {
        return;
      }
      written := written + [LogEntry(DebugLog, Level.Debug, message, userId, ctx)];
    }

    method Info(message: string, userId: Option<int>, ctx: Context)
      modifies this
      ensures level == old(level)
      ensures written == old(written) + Emit(level, Level.Info, message, userId, ctx)
    {
      if !ShouldLog(Level.Info, level) {
        return;
      }
      written := written + [LogEntry(AccessLog, Level.Info, message, userId, ctx)];
    }

    method Warning(message: string, userId: Option<int>, ctx: Context)
      modifies this
      ensures level == old(level)
      ensures written == old(written) + Emit(level, Level.Warning, message, userId, ctx)
    {
      if !ShouldLog(Level.Warning, level) {
        return;
      }
      written := written + [LogEntry(ErrorLog, Level.Warning, message, userId, ctx)];
    }

    method Error(message: string, userId: Option<int>, ctx: Context)
      modifies this
      ensures level == old(level)
      ensures written == old(written) + Emit(level, Level.Error, message, userId, ctx)
    {
      if !ShouldLog(Level.Error, level) {
        return;
      }
      written := written + [LogEntry(ErrorLog, Level.Error, message, userId, ctx)];
    }

    method Exception(e: Throwable, userId: Option<int>, ctx: Context)
      modifies this
      ensures level == old(level)
      ensures written == old(written) + Emit(level, Level.Error, ExceptionMessage(e), userId, ctx)
    {
      Error(ExceptionMessage(e), userId, ctx);
    }

    method LoginAttempt(username: string, success: bool, ctx: Context)
      modifies this
      ensures level == old(level)
      ensures written == old(written) + Emit(level, Level.Info, LoginAttemptMessage(username, success), None, ctx)
    {
      Info(LoginAttemptMessage(username, success), None, ctx);
    }

    method Logout(userId: int, ctx: Context)
      modifies this
      ensures level == old(level)
      ensures written == old(written) + Emit(level, Level.Info, "User logged out", Some(userId), ctx)
    {
      Info("User logged out", Some(userId), ctx);
    }

    method DataChange(table: string, action: string, recordId: int, userId: Option<int>, ctx: Context)
      modifies this
      ensures level == old(level)
      ensures written == old(written) +
                Emit(level, Level.Info, DataChangeMessage(table, action, recordId), userId, ctx)
    {
      Info(DataChangeMessage(table, action, recordId), userId, ctx);
    }
  }
}
