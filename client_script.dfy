// The client-side helpers of public/assets/js/app.js that compute something:
// the per-field validation flag, the password-confirmation check and the
// colour band of the intensity slider. `formatDuration` is Durations.FormatDuration.
module ClientScript {
  import opened Wrappers

  /** The colour band of an intensity: green, yellow or red. */
  datatype Band = Low | Medium | High

  /**
   * The slider's band for `parseInt(this.value)`; `None` stands for NaN,
   * which fails both comparisons and so lands in the red band.
   */
  function IntensityBand(value: Option<int>): (b: Band)
    ensures value.Some? ==> (b == Low <==> value.value <= 3)
    ensures value.Some? ==> (b == Medium <==> 4 <= value.value <= 6)
    ensures value.Some? ==> (b == High <==> 7 <= value.value)
    ensures value.None? ==> b == High
  {
    if value.Some? && value.value <= 3 then Low
    else if value.Some? && value.value <= 6 then Medium
    else High
  }

  function SliderColour(b: Band): string {
    match b
    case Low => "#22c55e"
    case Medium => "#eab308"
    case High => "#ef4444"
  }

  function BandRank(b: Band): nat {
    match b
    case Low => 0
    case Medium => 1
    case High => 2
  }

  /** A higher intensity never gets a lower band. */
  lemma BandMonotone(a: int, b: int)
    requires a <= b
    ensures BandRank(IntensityBand(Some(a))) <= BandRank(IntensityBand(Some(b)))
  {
  }

  /** The dashboard's intensity badge class, `intensity-low`, `-medium` or `-high`. */
  function DashboardBadge(intensity: int): string {
    if intensity <= 3 then "low" else if intensity <= 6 then "medium" else "high"
  }

  function BadgeName(b: Band): string {
    match b
    case Low => "low"
    case Medium => "medium"
    case High => "high"
  }

  /** The dashboard badge and the slider use the same thresholds. */
  lemma BadgeMatchesSlider(intensity: int)
    ensures DashboardBadge(intensity) == BadgeName(IntensityBand(Some(intensity)))
  {
  }

  /** The `minlength` attribute: absent, a number, or text `parseInt` reads as NaN. */
  datatype MinLength = NoMinLength | MinLengthOf(n: int) | MinLengthNaN

  /** What `validateInput` reads from a form control. */
  datatype Control = Control(value: string, required: bool, minLength: MinLength, hasPattern: bool, isEmail: bool)

  /** The characters `String.prototype.trim` removes: white space and line terminators. */
  predicate IsJsSpace(c: char) {
    c == '\t' || c == '\n' || c == 11 as char || c == 12 as char || c == '\r' || c == ' '
    || c == 0xA0 as char || c == 0x1680 as char || (0x2000 as char <= c <= 0x200A as char)
    || c == 0x2028 as char || c == 0x2029 as char || c == 0x202F as char || c == 0x205F as char
    || c == 0x3000 as char || c == 0xFEFF as char
  }

  /** `!value.trim()`: nothing is left once white space is trimmed. */
  predicate Blank(s: string) {
    forall i :: 0 <= i < |s| ==> IsJsSpace(s[i])
  }

  /**
   * The checks a control passes. `patternOk` and `emailOk` are the results
   * of the control's `pattern` and of the e-mail expression on the value;
   * they are only consulted for a non-empty value. A `minlength` that reads
   * as NaN never fails, since every comparison with NaN is false.
   */
  predicate ControlValid(c: Control, patternOk: bool, emailOk: bool) {
    && !(c.required && Blank(c.value))
    && !(c.minLength.MinLengthOf? && |c.value| < c.minLength.n)
    && !(c.hasPattern && c.value != "" && !patternOk)
    && !(c.isEmail && c.value != "" && !emailOk)
  }

  /** The `.form-group` around a control; `hasError` is its `has-error` class. */
  class FormGroup {
    var hasError: bool

    /** A group as the server renders it: `has-error` exactly when the page had an error for the field. */
    constructor (renderedWithError: bool)
      ensures hasError == renderedWithError
    {
      hasError := renderedWithError;
    }
  }

  /**
   * `validateInput`: without an enclosing group it returns `undefined`
   * (`None`); otherwise it returns whether every check passed and sets the
   * group's error class to the opposite.
   */
  method ValidateInput(c: Control, group: FormGroup?, patternOk: bool, emailOk: bool) returns (r: Option<bool>)
    modifies group
    ensures group == null ==> r == None
    ensures group != null ==> r == Some(ControlValid(c, patternOk, emailOk))
    ensures group != null ==> group.hasError == !ControlValid(c, patternOk, emailOk)
  {
    if group == null {
      return None;
    }
    var isValid := true;
    if c.required && Blank(c.value) {
      isValid := false;
    }
    if c.minLength.MinLengthOf? && |c.value| < c.minLength.n {
      isValid := false;
    }
    if c.hasPattern && c.value != "" && !patternOk {
      isValid := false;
    }
    if c.isEmail && c.value != "" && !emailOk {
      isValid := false;
    }
    group.hasError := !isValid;
    return Some(isValid);
  }

  /** A required control holding only white space is invalid, whatever its other checks say. */
  lemma BlankRequiredFails(c: Control, patternOk: bool, emailOk: bool)
    requires c.required && Blank(c.value)
    ensures !ControlValid(c, patternOk, emailOk)
  {
  }

  /** The `input` listener clears the error class as soon as the user types. */
  method ClearOnInput(group: FormGroup?)
    modifies group
    ensures group != null ==> !group.hasError
  {
    if group != null {
      group.hasError := false;
    }
  }

  /** The confirmation listener: the group is flagged exactly when the two values differ. */
  method CheckConfirmation(confirm: string, password: string, group: FormGroup?)
    modifies group
    ensures group != null ==> (group.hasError <==> confirm != password)
  {
    if confirm != password {
      if group != null {
        group.hasError := true;
      }
    } else {
      if group != null {
        group.hasError := false;
      }
    }
  }
}
