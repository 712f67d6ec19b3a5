// Minutes shown as hours and minutes. The same arithmetic appears three
// times in the system: the client-side `formatDuration` helper, the
// calendar's monthly total and the progress page's monthly table.
module Durations {
  import opened Wrappers
  import opened Text

  /** `Math.floor(minutes / 60)`, and PHP `floor($minutes / 60)`: the hour part shown. */
  function Hours(minutes: int): (h: int)
    ensures h * 60 <= minutes < h * 60 + 60
  {
    minutes / 60
  }

  /**
   * `minutes % 60` in JavaScript and PHP: the remainder takes the sign of the
   * dividend, unlike Dafny's `%`.
   */
  function Minutes(minutes: int): (m: int)
    ensures minutes >= 0 ==> 0 <= m < 60
    ensures minutes < 0 ==> -60 < m <= 0
    ensures (minutes - m) % 60 == 0
  {
    if minutes >= 0 then minutes % 60 else -((-minutes) % 60)
  }

  /** `h > 0 ? "{h}h {m}m" : "{m}m"`. */
  function FormatDuration(minutes: int): (s: string)
    ensures |s| >= 2 && s[|s| - 1] == 'm'
  {
    var h, m := Hours(minutes), Minutes(minutes);
    if h > 0 then IntToDecimal(h) + "h " + IntToDecimal(m) + "m" else IntToDecimal(m) + "m"
  }

  /** The position of the first `c` in `s`, or `|s|`. */
  function IndexOf(s: string, c: char): (k: nat)
    ensures k <= |s|
    ensures k < |s| ==> s[k] == c
    ensures forall i :: 0 <= i < k ==> s[i] != c
  {
    if s == [] then 0 else if s[0] == c then 0 else 1 + IndexOf(s[1..], c)
  }

  /** Reads back a non-negative duration written by FormatDuration. */
  function ParseDuration(s: string): Option<int>
  {
    if |s| < 2 || s[|s| - 1] != 'm' then None else ParseBody(s[..|s| - 1])
  }

  /** `{h}h {m}` or `{m}`, the text before the closing `m`. */
  function ParseBody(body: string): Option<int>
  {
    var k := IndexOf(body, 'h');
    if k == |body| then
      (if AllDigits(body) && body != "" then Some(DecimalValue(body)) else None)
    else if k + 1 < |body| && body[k + 1] == ' ' && AllDigits(body[..k]) && AllDigits(body[k + 2..]) then
      Some(DecimalValue(body[..k]) * 60 + DecimalValue(body[k + 2..]))
    else None
  }

  lemma DigitsHaveNoH(d: string)
    requires AllDigits(d)
    ensures IndexOf(d, 'h') == |d|
  {
    if d != [] {
      assert AllDigits(d[1..]) by {
        forall i | 0 <= i < |d[1..]| ensures IsDigit(d[1..][i]) { assert d[1..][i] == d[i + 1]; }
      }
      DigitsHaveNoH(d[1..]);
    }
  }

  /** Every non-negative duration reads back from its text, so no two durations look alike. */
  lemma FormatDurationRoundTrip(minutes: int)
    requires minutes >= 0
    ensures ParseDuration(FormatDuration(minutes)) == Some(minutes)
  {
    var h, m := Hours(minutes), Minutes(minutes);
    assert h >= 0 && m >= 0 && h * 60 + m == minutes;
    DecimalRoundTrip(h);
    DecimalRoundTrip(m);
    if h > 0 {
      ParseHoursAndMinutes(NatToDecimal(h), NatToDecimal(m));
    } else {
      ParseMinutesOnly(NatToDecimal(m));
    }
  }

  lemma {:induction false} ParseHoursAndMinutes(hd: string, md: string)
    requires AllDigits(hd) && AllDigits(md)
    ensures ParseDuration(hd + "h " + md + "m") == Some(DecimalValue(hd) * 60 + DecimalValue(md))
  {
    var body := hd + "h " + md;
    HourMarkAt(hd, md);
    ParseBodyWithHours(body, |hd|);
    SameDigitsSameValue(body[..|hd|], hd);
    SameDigitsSameValue(body[|hd| + 2..], md);
    ClosingM(body);
  }

  lemma {:induction false} HourMarkAt(hd: string, md: string)
    requires AllDigits(hd)
    ensures var body := hd + "h " + md;
      IndexOf(body, 'h') == |hd| && body[|hd| + 1] == ' ' && body[..|hd|] == hd && body[|hd| + 2..] == md
  {
    var body := hd + "h " + md;
    DigitsHaveNoH(hd);
    assert body == hd + ("h " + md);
    assert IndexOf("h " + md, 'h') == 0;
    IndexOfAppend(hd, "h " + md, 'h');
  }

  lemma ClosingM(body: string)
    ensures ParseDuration(body + "m") == ParseBody(body)
  {
    var s := body + "m";
    assert s[..|s| - 1] == body;
  }

  lemma ParseBodyWithHours(body: string, k: nat)
    requires k + 1 < |body| && IndexOf(body, 'h') == k && body[k + 1] == ' '
    requires AllDigits(body[..k]) && AllDigits(body[k + 2..])
    ensures ParseBody(body) == Some(DecimalValue(body[..k]) * 60 + DecimalValue(body[k + 2..]))
  {
  }

  lemma SameDigitsSameValue(a: string, b: string)
    requires a == b && AllDigits(a)
    ensures DecimalValue(a) == DecimalValue(b)
  {
  }

  lemma ParseMinutesOnly(md: string)
    requires AllDigits(md) && md != ""
    ensures ParseDuration(md + "m") == Some(DecimalValue(md))
  {
    ClosingM(md);
    DigitsHaveNoH(md);
  }

  lemma {:induction false} IndexOfAppend(a: string, b: string, c: char)
    requires IndexOf(a, c) == |a|
    ensures IndexOf(a + b, c) == |a| + IndexOf(b, c)
    decreases |a|
  {
    if a != [] {
      assert (a + b)[1..] == a[1..] + b;
      IndexOfAppend(a[1..], b, c);
    } else {
      assert a + b == b;
    }
  }

  /** The text carries an hour part exactly when the duration reaches an hour. */
  lemma HourPartFromSixty(minutes: int)
    ensures IndexOf(FormatDuration(minutes), 'h') < |FormatDuration(minutes)| <==> minutes >= 60
  {
    var h, md := Hours(minutes), IntToDecimal(Minutes(minutes));
    var s := FormatDuration(minutes);
    NoHInNumber(Minutes(minutes));
    if h > 0 {
      var hd := NatToDecimal(h);
      DigitsHaveNoH(hd);
      assert s == hd + ("h " + md + "m");
      IndexOfAppend(hd, "h " + md + "m", 'h');
    } else {
      assert s == md + "m";
      IndexOfAppend(md, "m", 'h');
      assert IndexOf("m", 'h') == 1;
    }
  }

  lemma NoHInNumber(i: int)
    ensures IndexOf(IntToDecimal(i), 'h') == |IntToDecimal(i)|
  {
    if i < 0 {
      var d := NatToDecimal(-i);
      DigitsHaveNoH(d);
      assert IntToDecimal(i) == "-" + d;
      assert IndexOf("-", 'h') == 1;
      IndexOfAppend("-", d, 'h');
    } else {
      DigitsHaveNoH(IntToDecimal(i));
    }
  }
}
