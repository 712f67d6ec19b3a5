/**
 * app/utils/Validator.php: an error map filled in by rule checkers, and
 * the `htmlspecialchars` output escaper.
 *
 * The PHP error array is ordered by first insertion, so it is a sequence
 * of (field, message) pairs here; writing a field that is already there
 * replaces its message in place. Each rule is a pure function giving the
 * error message it would add, if any, and each `Validator` method does
 * what the rule says to the error map.
 */
module Validation {
  import opened Wrappers
  import opened Config
  import opened Text

  type ErrorMap = seq<(string, string)>

  // ---------------------------------------------------------------------
  // The error map
  // ---------------------------------------------------------------------

  /** `$this->errors[$field] = $message`: replace in place, or append a new field. */
  function Put(errors: ErrorMap, field: string, message: string): (r: ErrorMap)
    ensures |r| == |errors| || |r| == |errors| + 1
    ensures r != []
    decreases |errors|
  {
    if errors == [] then [(field, message)]
    else if errors[0].0 == field then [(field, message)] + errors[1..]
    else [errors[0]] + Put(errors[1..], field, message)
  }

  /** The message of `field`, if any: `$errors[$field] ?? null`. */
  function MessageOf(errors: ErrorMap, field: string): Option<string>
    decreases |errors|
  {
    if errors == [] then None
    else if errors[0].0 == field then Some(errors[0].1)
    else MessageOf(errors[1..], field)
  }

  /** The keys of the array, in order. */
  function Fields(errors: ErrorMap): (fields: seq<string>)
    ensures |fields| == |errors|
    ensures forall i :: 0 <= i < |errors| ==> fields[i] == errors[i].0
    decreases |errors|
  {
    if errors == [] then [] else [errors[0].0] + Fields(errors[1..])
  }

  predicate UniqueFields(errors: ErrorMap) {
    forall i, j :: 0 <= i < j < |errors| ==> errors[i].0 != errors[j].0
  }

  /** What a checker does with its verdict: an error is recorded under the field, a pass changes nothing. */
  function WithError(errors: ErrorMap, field: string, error: Option<string>): ErrorMap {
    match error
    case None => errors
    case Some(message) => Put(errors, field, message)
  }

  /** A run of checks, each a field and its verdict, applied in order. */
  function AfterChecks(errors: ErrorMap, checks: seq<(string, Option<string>)>): ErrorMap
    decreases |checks|
  {
    if checks == [] then errors else AfterChecks(WithError(errors, checks[0].0, checks[0].1), checks[1..])
  }

  /** The last message written to a field wins, and the other fields keep theirs. */
  lemma {:induction false} PutLastWriteWins(errors: ErrorMap, field: string, message: string, other: string)
    ensures MessageOf(Put(errors, field, message), field) == Some(message)
    ensures other != field ==> MessageOf(Put(errors, field, message), other) == MessageOf(errors, other)
    decreases |errors|
  {
    if errors != [] && errors[0].0 != field {
      PutLastWriteWins(errors[1..], field, message, other);
    }
  }

  /** A field keeps its position when overwritten, and a new one goes at the end. */
  lemma {:induction false} PutKeepsOrder(errors: ErrorMap, field: string, message: string)
    ensures field in Fields(errors) ==> Fields(Put(errors, field, message)) == Fields(errors)
    ensures field !in Fields(errors) ==> Fields(Put(errors, field, message)) == Fields(errors) + [field]
    decreases |errors|
  {
    if errors != [] {
      assert Fields(errors) == [errors[0].0] + Fields(errors[1..]);
      if errors[0].0 != field {
        PutKeepsOrder(errors[1..], field, message);
        assert field in Fields(errors) <==> field in Fields(errors[1..]);
      }
    }
  }

  /** One message per field: `Put` keeps the fields distinct. */
  lemma {:induction false} PutKeepsFieldsUnique(errors: ErrorMap, field: string, message: string)
    requires UniqueFields(errors)
    ensures UniqueFields(Put(errors, field, message))
  {
    PutKeepsOrder(errors, field, message);
    var r := Put(errors, field, message);
    if field !in Fields(errors) {
      forall i, j | 0 <= i < j < |r| ensures r[i].0 != r[j].0 {
        assert Fields(r)[i] == r[i].0 && Fields(r)[j] == r[j].0;
        if j == |errors| {
          assert Fields(errors)[i] == errors[i].0;
        } else {
          assert Fields(r)[i] == Fields(errors)[i] && Fields(r)[j] == Fields(errors)[j];
        }
      }
    } else {
      forall i, j | 0 <= i < j < |r| ensures r[i].0 != r[j].0 {
        assert Fields(r)[i] == Fields(errors)[i] && Fields(r)[j] == Fields(errors)[j];
      }
    }
  }

  /** `isValid()` after a run of checks on a fresh validator holds exactly when every check passed. */
  lemma {:induction false} ValidIffAllChecksPass(errors: ErrorMap, checks: seq<(string, Option<string>)>)
    ensures AfterChecks(errors, checks) == [] <==> errors == [] && forall i :: 0 <= i < |checks| ==> checks[i].1.None?
    decreases |checks|
  {
    if checks != [] {
      ValidIffAllChecksPass(WithError(errors, checks[0].0, checks[0].1), checks[1..]);
      assert forall i :: 1 <= i < |checks| ==> checks[i] == checks[1..][i - 1];
    }
  }

  // ---------------------------------------------------------------------
  // The rules
  // ---------------------------------------------------------------------

  /** `[a-zA-Z0-9_-]`. */
  predicate IsUsernameChar(c: char) { IsAsciiLetter(c) || IsDigit(c) || c == '_' || c == '-' }

  /** `[a-zA-Z0-9\s-]`. */
  predicate IsSessionTypeChar(c: char) { IsAsciiLetter(c) || IsDigit(c) || IsRegexSpace(c) || c == '-' }

  predicate HasLetter(s: string) { exists i :: 0 <= i < |s| && IsAsciiLetter(s[i]) }
  predicate HasDigit(s: string) { exists i :: 0 <= i < |s| && IsDigit(s[i]) }

  /** `username()`: the trimmed value must be 3 to 50 characters of `[a-zA-Z0-9_-]`. */
  function UsernameError(value: string): (error: Option<string>)
    ensures error.None? <==>
              USERNAME_MIN_LENGTH <= |Trim(value)| <= USERNAME_MAX_LENGTH && forall i :: 0 <= i < |Trim(value)| ==> IsUsernameChar(Trim(value)[i])
    ensures PhpEmpty(Trim(value)) <==> error == Some("Username is required")
  {
    var v := Trim(value);
    if PhpEmpty(v) then Some("Username is required")
    else if |v| < USERNAME_MIN_LENGTH || |v| > USERNAME_MAX_LENGTH then
      Some("Username must be between " + IntToDecimal(USERNAME_MIN_LENGTH) + " and " + IntToDecimal(USERNAME_MAX_LENGTH) + " characters")
    else if !(forall i :: 0 <= i < |v| ==> IsUsernameChar(v[i])) then
      Some("Username can only contain letters, numbers, underscores, and hyphens")
    else None
  }

  /** `password()`: the untrimmed value must be 8 to 128 characters with a letter and a digit. */
  function PasswordError(value: string): (error: Option<string>)
    ensures error.None? <==>
              PASSWORD_MIN_LENGTH <= |value| <= PASSWORD_MAX_LENGTH && HasLetter(value) && HasDigit(value)
    ensures PhpEmpty(value) <==> error == Some("Password is required")
  {
    if PhpEmpty(value) then Some("Password is required")
    else if |value| < PASSWORD_MIN_LENGTH || |value| > PASSWORD_MAX_LENGTH then
      Some("Password must be between " + IntToDecimal(PASSWORD_MIN_LENGTH) + " and " + IntToDecimal(PASSWORD_MAX_LENGTH) + " characters")
    else if !HasLetter(value) then Some("Password must contain at least one letter")
    else if !HasDigit(value) then Some("Password must contain at least one number")
    else None
  }

  /**
   * `email()`: optional; otherwise at most 150 characters and accepted by
   * `filter_var(…, FILTER_VALIDATE_EMAIL)`, which is the `isEmail` parameter.
   */
  function EmailError(value: Option<string>, isEmail: string -> bool): (error: Option<string>)
    ensures error.None? <==> value.None? || PhpEmpty(value.value) || (|value.value| <= 150 && isEmail(value.value))
  {
    if value.None? || PhpEmpty(value.value) then None
    else if |value.value| > 150 then Some("Email must be less than 150 characters")
    else if !isEmail(value.value) then Some("Invalid email format")
    else None
  }

  /** `sessionType()`: the trimmed value must be 1 to 50 characters of `[a-zA-Z0-9\s-]`, and not "0". */
  function SessionTypeError(value: string): (error: Option<string>)
    ensures error.None? <==>
              !PhpEmpty(Trim(value)) && |Trim(value)| <= 50 && forall i :: 0 <= i < |Trim(value)| ==> IsSessionTypeChar(Trim(value)[i])
  {
    var v := Trim(value);
    if PhpEmpty(v) then Some("Session type is required")
    else if |v| > 50 then Some("Session type must be less than 50 characters")
    else if !(forall i :: 0 <= i < |v| ==> IsSessionTypeChar(v[i])) then
      Some("Session type can only contain letters, numbers, spaces, and hyphens")
    else None
  }

  /** `notes()`: optional; otherwise at most NOTES_MAX_LENGTH characters. */
  function NotesError(value: Option<string>): (error: Option<string>)
    ensures error.None? <==> value.None? || |value.value| <= NOTES_MAX_LENGTH
  {
    if value.None? || PhpEmpty(value.value) then None
    else if |value.value| > NOTES_MAX_LENGTH then Some("Notes must be less than " + IntToDecimal(NOTES_MAX_LENGTH) + " characters")
    else None
  }

  /** `duration()`: optional; otherwise DURATION_MIN to DURATION_MAX minutes. */
  function DurationError(value: Option<int>): (error: Option<string>)
    ensures error.None? <==> value.None? || DURATION_MIN <= value.value <= DURATION_MAX
  {
    if value.None? then None
    else if value.value < DURATION_MIN || value.value > DURATION_MAX then
      Some("Duration must be between " + IntToDecimal(DURATION_MIN) + " and " + IntToDecimal(DURATION_MAX) + " minutes")
    else None
  }

  /** `intensity()`: optional; otherwise INTENSITY_MIN to INTENSITY_MAX. */
  function IntensityError(value: Option<int>): (error: Option<string>)
    ensures error.None? <==> value.None? || INTENSITY_MIN <= value.value <= INTENSITY_MAX
  {
    if value.None? then None
    else if value.value < INTENSITY_MIN || value.value > INTENSITY_MAX then
      Some("Intensity must be between " + IntToDecimal(INTENSITY_MIN) + " and " + IntToDecimal(INTENSITY_MAX))
    else None
  }

  /** `[01]?[0-9]|2[0-3]` as a whole field. */
  predicate IsHourField(h: string) {
    (|h| == 1 && IsDigit(h[0])) ||
    (|h| == 2 && (((h[0] == '0' || h[0] == '1') && IsDigit(h[1])) || (h[0] == '2' && '0' <= h[1] <= '3')))
  }

  /** `[0-5][0-9]` as a whole field. */
  predicate IsSixtyField(m: string) { |m| == 2 && '0' <= m[0] <= '5' && IsDigit(m[1]) }

  /** The pattern between the anchors, with an hour field of `width` characters. */
  predicate TimeBodyWithHour(s: string, width: nat) {
    width < |s| && IsHourField(s[..width]) && s[width] == ':' &&
    var rest := s[width + 1..];
    IsSixtyField(rest) || (|rest| == 5 && IsSixtyField(rest[..2]) && rest[2] == ':' && IsSixtyField(rest[3..]))
  }

  predicate TimeBody(s: string) { TimeBodyWithHour(s, 1) || TimeBodyWithHour(s, 2) }

  /**
   * `preg_match('/^(…)$/', $value)`: without the `D` modifier `$` also
   * matches before a final line feed, so one trailing "\n" is accepted.
   */
  predicate TimePatternMatches(s: string) {
    TimeBody(s) || (s != [] && s[|s| - 1] == '\n' && TimeBody(s[..|s| - 1]))
  }

  /** `time()`: optional; otherwise H:MM, HH:MM, H:MM:SS or HH:MM:SS on a 24-hour clock. */
  function TimeError(value: Option<string>): (error: Option<string>)
    ensures error.None? <==> value.None? || PhpEmpty(value.value) || TimePatternMatches(value.value)
  {
    if value.None? || PhpEmpty(value.value) then None
    else if !TimePatternMatches(value.value) then Some("Invalid time format. Use HH:MM or HH:MM:SS")
    else None
  }

  /** Every accepted time names an hour up to 23 and a minute up to 59. */
  lemma TimeFieldsInRange(s: string, width: nat)
    requires TimeBodyWithHour(s, width)
    ensures AllDigits(s[..width]) && DecimalValue(s[..width]) <= 23
    ensures AllDigits(s[width + 1..width + 3]) && DecimalValue(s[width + 1..width + 3]) <= 59
  {
    var h := s[..width];
    var m := s[width + 1..width + 3];
    assert m == s[width + 1..][..2];
    if width == 1 {
      assert h[..0] == [];
      assert DecimalValue(h) == DigitValue(h[0]);
    } else {
      assert h[..1] == [h[0]];
      assert h[..1][..0] == [];
      assert DecimalValue(h[..1]) == DigitValue(h[0]);
      assert DecimalValue(h) == DigitValue(h[0]) * 10 + DigitValue(h[1]);
    }
    assert m[..1] == [m[0]];
    assert m[..1][..0] == [];
    assert DecimalValue(m[..1]) == DigitValue(m[0]);
    assert DecimalValue(m) == DigitValue(m[0]) * 10 + DigitValue(m[1]);
  }

  /** Every clock time from 00:00 to 23:59, written with two-digit fields, is accepted, as is H:MM below ten. */
  lemma ClockTimesAccepted(h: nat, m: nat)
    requires h <= 23 && m <= 59
    ensures TimePatternMatches(ZeroPadded(h, 2) + ":" + ZeroPadded(m, 2))
    ensures h < 10 ==> TimePatternMatches(NatToDecimal(h) + ":" + ZeroPadded(m, 2))
  {
    TwoDigitPadding(h);
    TwoDigitPadding(m);
    DigitRoundTrip(h / 10);
    DigitRoundTrip(h % 10);
    DigitRoundTrip(m / 10);
    DigitRoundTrip(m % 10);
    var s := ZeroPadded(h, 2) + ":" + ZeroPadded(m, 2);
    assert s[..2] == ZeroPadded(h, 2) && s[3..] == ZeroPadded(m, 2);
    assert TimeBodyWithHour(s, 2);
    if h < 10 {
      var t := NatToDecimal(h) + ":" + ZeroPadded(m, 2);
      assert NatToDecimal(h) == [DigitChar(h)];
      assert t[..1] == NatToDecimal(h) && t[2..] == ZeroPadded(m, 2);
      assert TimeBodyWithHour(t, 1);
    }
  }

  /** `24:00` and `12:60` are rejected; `12:30` with one trailing line feed is accepted. */
  lemma TimeEdgeCases()
    ensures !TimePatternMatches("24:00")
    ensures !TimePatternMatches("12:60")
    ensures TimePatternMatches("12:30\n")
    ensures !TimePatternMatches("12:30\n\n")
  {
    var a := "24:00";
    assert a[..1] == "2" && a[..2] == "24";
    assert !TimeBodyWithHour(a, 1);
    var b := "12:60";
    assert b[..2] == "12" && b[3..] == "60";
    assert b[..1] == "1";
    var c := "12:30\n";
    assert c[..|c| - 1] == "12:30";
    assert "12:30"[..2] == "12" && "12:30"[3..] == "30";
    var d := "12:30\n\n";
    assert d[..|d| - 1] == "12:30\n";
    assert d[..1] == "1" && d[..2] == "12" && d[3..] == "30\n\n";
    var e := "12:30\n";
    assert e[..1] == "1" && e[..2] == "12" && e[3..] == "30\n";
  }

  // ---------------------------------------------------------------------
  // htmlspecialchars($value, ENT_QUOTES, 'UTF-8')
  // ---------------------------------------------------------------------

  predicate IsContinuation(c: char) { 0x80 <= c as int <= 0xBF }

  /** The length of the well-formed UTF-8 sequence that starts `s`, or 0 if it is not one (Unicode table 3-7). */
  function SequenceLength(s: string): (n: nat)
    requires s != []
    ensures n <= |s| && n <= 4
  {
    var b := s[0] as int;
    if b <= 0x7F then 1
    else if 0xC2 <= b <= 0xDF then
      (if 2 <= |s| && IsContinuation(s[1]) then 2 else 0)
    else if b == 0xE0 then
      (if 3 <= |s| && 0xA0 <= s[1] as int <= 0xBF && IsContinuation(s[2]) then 3 else 0)
    else if (0xE1 <= b <= 0xEC) || (0xEE <= b <= 0xEF) then
      (if 3 <= |s| && IsContinuation(s[1]) && IsContinuation(s[2]) then 3 else 0)
    else if b == 0xED then
      (if 3 <= |s| && 0x80 <= s[1] as int <= 0x9F && IsContinuation(s[2]) then 3 else 0)
    else if b == 0xF0 then
      (if 4 <= |s| && 0x90 <= s[1] as int <= 0xBF && IsContinuation(s[2]) && IsContinuation(s[3]) then 4 else 0)
    else if 0xF1 <= b <= 0xF3 then
      (if 4 <= |s| && IsContinuation(s[1]) && IsContinuation(s[2]) && IsContinuation(s[3]) then 4 else 0)
    else if b == 0xF4 then
      (if 4 <= |s| && 0x80 <= s[1] as int <= 0x8F && IsContinuation(s[2]) && IsContinuation(s[3]) then 4 else 0)
    else 0
  }

  /** The bytes are well-formed UTF-8: no stray continuation, overlong form, surrogate or cut-off sequence. */
  predicate WellFormedUtf8(s: string)
    decreases |s|
  {
    s == [] || (SequenceLength(s) > 0 && WellFormedUtf8(s[SequenceLength(s)..]))
  }

  function EscapeChar(c: char): string {
    if c == '&' then "&amp;"
    else if c == '<' then "&lt;"
    else if c == '>' then "&gt;"
    else if c == '"' then "&quot;"
    else if c == '\'' then "&#039;"
    else [c]
  }

  /** Characters that may not appear raw in escaped output. */
  predicate IsMarkup(c: char) { c == '<' || c == '>' || c == '"' || c == '\'' }

  /** Entity replacement of `& < > " '`, every `&` included (double encoding is on). */
  function Escape(s: string): (r: string)
    ensures forall i :: 0 <= i < |r| ==> !IsMarkup(r[i])
    ensures (forall i :: 0 <= i < |s| ==> !IsMarkup(s[i]) && s[i] != '&') ==> r == s
  {
    if s == [] then [] else EscapeChar(s[0]) + Escape(s[1..])
  }

  /**
   * `sanitizeOutput`: htmlspecialchars with ENT_QUOTES in UTF-8. Without
   * ENT_SUBSTITUTE or ENT_IGNORE an ill-formed input gives the empty string.
   */
  function Sanitize(s: string): (r: string)
    ensures forall i :: 0 <= i < |r| ==> !IsMarkup(r[i])
  {
    if WellFormedUtf8(s) then Escape(s) else ""
  }

  /** Decoding of the five entities `Escape` writes. */
  function Unescape(t: string): string
    decreases |t|
  {
    if t == [] then []
    else if 5 <= |t| && t[..5] == "&amp;" then "&" + Unescape(t[5..])
    else if 4 <= |t| && t[..4] == "&lt;" then "<" + Unescape(t[4..])
    else if 4 <= |t| && t[..4] == "&gt;" then ">" + Unescape(t[4..])
    else if 6 <= |t| && t[..6] == "&quot;" then "\"" + Unescape(t[6..])
    else if 6 <= |t| && t[..6] == "&#039;" then "'" + Unescape(t[6..])
    else [t[0]] + Unescape(t[1..])
  }

  /** A text whose `k`-th character differs from the entity's does not start with the entity. */
  lemma NotEntity(t: string, entity: string, k: nat)
    requires k < |entity| && k < |t| && t[k] != entity[k]
    ensures !(|entity| <= |t| && t[..|entity|] == entity)
  {
    if |entity| <= |t| {
      assert t[..|entity|][k] != entity[k];
    }
  }

  lemma UnescapeOneChar(c: char, rest: string)
    ensures Unescape(EscapeChar(c) + rest) == [c] + Unescape(rest)
  {
    var e := EscapeChar(c);
    var t := e + rest;
    assert t[..|e|] == e && t[|e|..] == rest;
    if c == '&' {
    } else if c == '<' {
      NotEntity(t, "&amp;", 1);
    } else if c == '>' {
      NotEntity(t, "&amp;", 1);
      NotEntity(t, "&lt;", 1);
    } else if c == '"' {
      NotEntity(t, "&amp;", 1);
      NotEntity(t, "&lt;", 1);
      NotEntity(t, "&gt;", 1);
    } else if c == '\'' {
      NotEntity(t, "&amp;", 1);
      NotEntity(t, "&lt;", 1);
      NotEntity(t, "&gt;", 1);
      NotEntity(t, "&quot;", 1);
    } else {
      NotEntity(t, "&amp;", 0);
      NotEntity(t, "&lt;", 0);
      NotEntity(t, "&gt;", 0);
      NotEntity(t, "&quot;", 0);
      NotEntity(t, "&#039;", 0);
    }
  }

  /** Unescaping the escaped text gives the text back. */
  lemma {:induction false} EscapeRoundTrip(s: string)
    ensures Unescape(Escape(s)) == s
    decreases |s|
  {
    if s != [] {
      UnescapeOneChar(s[0], Escape(s[1..]));
      EscapeRoundTrip(s[1..]);
    }
  }

  /** Plain 7-bit text is well-formed UTF-8. */
  lemma {:induction false} AsciiIsWellFormed(s: string)
    requires forall i :: 0 <= i < |s| ==> s[i] as int <= 0x7F
    ensures WellFormedUtf8(s)
    decreases |s|
  {
    if s != [] {
      AsciiIsWellFormed(s[1..]);
    }
  }

  /** Well-formed input round-trips through `sanitizeOutput`; anything else comes out empty. */
  lemma SanitizeRoundTrip(s: string)
    ensures WellFormedUtf8(s) ==> Unescape(Sanitize(s)) == s
    ensures !WellFormedUtf8(s) ==> Sanitize(s) == ""
  {
    EscapeRoundTrip(s);
  }

  /** A stray continuation byte makes the whole output empty. */
  lemma StrayContinuationEmpties(pre: string, post: string)
    requires forall i :: 0 <= i < |pre| ==> pre[i] as int <= 0x7F
    ensures Sanitize(pre + [0x80 as char] + post) == ""
  {
    StrayContinuationIllFormed(pre, post);
  }

  lemma {:induction false} StrayContinuationIllFormed(pre: string, post: string)
    requires forall i :: 0 <= i < |pre| ==> pre[i] as int <= 0x7F
    ensures !WellFormedUtf8(pre + [0x80 as char] + post)
    decreases |pre|
  {
    var s := pre + [0x80 as char] + post;
    if pre == [] {
      assert s[0] == 0x80 as char;
      assert SequenceLength(s) == 0;
    } else {
      assert s[0] == pre[0];
      assert SequenceLength(s) == 1;
      assert s[1..] == pre[1..] + [0x80 as char] + post;
      StrayContinuationIllFormed(pre[1..], post);
    }
  }

  /** An element of the array `sanitizeArray` maps over: a string, or any other PHP value. */
  datatype Cell<V> = Str(s: string) | Other(v: V)

  /** `sanitizeArray`: strings are sanitized, other values and every key are kept. */
  function SanitizeArray<K, V>(values: seq<(K, Cell<V>)>): (r: seq<(K, Cell<V>)>)
    ensures |r| == |values|
    ensures forall i :: 0 <= i < |values| ==> r[i].0 == values[i].0
    ensures forall i :: 0 <= i < |values| ==>
              r[i].1 == match values[i].1 case Str(s) => Str(Sanitize(s)) case Other(v) => Other(v)
  {
    if values == [] then []
    else
      var head := match values[0].1 case Str(s) => Str(Sanitize(s)) case Other(v) => Other(v);
      [(values[0].0, head)] + SanitizeArray(values[1..])
  }

  // ---------------------------------------------------------------------
  // The validator object
  // ---------------------------------------------------------------------

  class Validator {
    var errors: ErrorMap

    constructor ()
      ensures errors == []
    {
      errors := [];
    }

    /** `getErrors()`. */
    function Errors(): ErrorMap
      reads this
    {
      errors
    }

    /** `isValid()`: `empty($this->errors)`. */
    function IsValid(): (ok: bool)
      reads this
      ensures ok <==> |errors| == 0
    {
      errors == []
    }

    method AddError(field: string, message: string)
      modifies this
      ensures errors == Put(old(errors), field, message)
    {
      errors := Put(errors, field, message);
    }

    method ClearErrors()
      modifies this
      ensures errors == []
    {
      errors := [];
    }

    method Username(value: string, field: string) returns (ok: bool)
      modifies this
      ensures ok <==> UsernameError(value).None?
      ensures errors == WithError(old(errors), field, UsernameError(value))
    {
      var v := Trim(value);
      if PhpEmpty(v) {
        AddError(field, "Username is required");
        return false;
      }
      if |v| < USERNAME_MIN_LENGTH || |v| > USERNAME_MAX_LENGTH {
        AddError(field, "Username must be between " + IntToDecimal(USERNAME_MIN_LENGTH) + " and "
                        + IntToDecimal(USERNAME_MAX_LENGTH) + " characters");
        return false;
      }
      var i := 0;
      while i < |v|
        invariant 0 <= i <= |v|
        invariant forall k :: 0 <= k < i ==> IsUsernameChar(v[k])
      {
        if !IsUsernameChar(v[i]) {
          AddError(field, "Username can only contain letters, numbers, underscores, and hyphens");
          return false;
        }
        i := i + 1;
      }
      return true;
    }

    method Password(value: string, field: string) returns (ok: bool)
      modifies this
      ensures ok <==> PasswordError(value).None?
      ensures errors == WithError(old(errors), field, PasswordError(value))
    {
      var error := PasswordError(value);
      if error.Some? {
        AddError(field, error.value);
        return false;
      }
      return true;
    }

    method Email(value: Option<string>, isEmail: string -> bool, field: string) returns (ok: bool)
      modifies this
      ensures ok <==> EmailError(value, isEmail).None?
      ensures errors == WithError(old(errors), field, EmailError(value, isEmail))
    {
      var error := EmailError(value, isEmail);
      if error.Some? {
        AddError(field, error.value);
        return false;
      }
      return true;
    }

    method SessionType(value: string, field: string) returns (ok: bool)
      modifies this
      ensures ok <==> SessionTypeError(value).None?
      ensures errors == WithError(old(errors), field, SessionTypeError(value))
    {
      var error := SessionTypeError(value);
      if error.Some? {
        AddError(field, error.value);
        return false;
      }
      return true;
    }

    method Notes(value: Option<string>, field: string) returns (ok: bool)
      modifies this
      ensures ok <==> NotesError(value).None?
      ensures errors == WithError(old(errors), field, NotesError(value))
    {
      var error := NotesError(value);
      if error.Some? {
        AddError(field, error.value);
        return false;
      }
      return true;
    }

    method Duration(value: Option<int>, field: string) returns (ok: bool)
      modifies this
      ensures ok <==> DurationError(value).None?
      ensures errors == WithError(old(errors), field, DurationError(value))
    {
      var error := DurationError(value);
      if error.Some? {
        AddError(field, error.value);
        return false;
      }
      return true;
    }

    method Intensity(value: Option<int>, field: string) returns (ok: bool)
      modifies this
      ensures ok <==> IntensityError(value).None?
      ensures errors == WithError(old(errors), field, IntensityError(value))
    {
      var error := IntensityError(value);
      if error.Some? {
        AddError(field, error.value);
        return false;
      }
      return true;
    }

    method Time(value: Option<string>, field: string) returns (ok: bool)
      modifies this
      ensures ok <==> TimeError(value).None?
      ensures errors == WithError(old(errors), field, TimeError(value))
    {
      var error := TimeError(value);
      if error.Some? {
        AddError(field, error.value);
        return false;
      }
      return true;
    }
  }
}
