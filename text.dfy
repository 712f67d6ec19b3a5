/**
 * String helpers shared by the modelled PHP and JavaScript: decimal
 * rendering of integers (PHP string interpolation, `sprintf('%d')`, JS
 * template literals), `sprintf('%0Nd')` padding, PHP `trim`, PHP
 * `empty()` on strings, ASCII case mapping (`strtolower`/`strtoupper`)
 * and `str_replace` of one character.
 */
module Text {

  predicate IsDigit(c: char) { '0' <= c <= '9' }

  predicate IsAsciiLetter(c: char) { 'a' <= c <= 'z' || 'A' <= c <= 'Z' }

  /** `\s` of PCRE: space, tab, line feed, vertical tab, form feed, carriage return. */
  predicate IsRegexSpace(c: char) {
    c == ' ' || c == '\t' || c == '\n' || c == 11 as char || c == 12 as char || c == '\r'
  }

  predicate AllDigits(s: string) { forall i :: 0 <= i < |s| ==> IsDigit(s[i]) }

  function DigitChar(d: nat): (c: char)
    requires d < 10
    ensures IsDigit(c)
  {
    "0123456789"[d]
  }

  function DigitValue(c: char): nat
    requires IsDigit(c)
  {
    (c as int) - ('0' as int)
  }

  /** The decimal digits of `n`, most significant first, without leading zeros. */
  function NatToDecimal(n: nat): (s: string)
    ensures 1 <= |s|
    ensures AllDigits(s)
    ensures s[0] == '0' ==> n == 0 && s == "0"
    decreases n
  {
    if n < 10 then [DigitChar(n)] else NatToDecimal(n / 10) + [DigitChar(n % 10)]
  }

  /** The number a string of decimal digits denotes (leading zeros allowed). */
  function DecimalValue(s: string): nat
    requires AllDigits(s)
  {
    if s == [] then 0 else DecimalValue(s[..|s| - 1]) * 10 + DigitValue(s[|s| - 1])
  }

  lemma {:induction false} DigitRoundTrip(d: nat)
    requires d < 10
    ensures DigitValue(DigitChar(d)) == d
  {
    assert "0123456789"[d] as int == '0' as int + d by {
      assert "0123456789"[0] == '0' && "0123456789"[1] == '1' && "0123456789"[2] == '2';
      assert "0123456789"[3] == '3' && "0123456789"[4] == '4' && "0123456789"[5] == '5';
      assert "0123456789"[6] == '6' && "0123456789"[7] == '7' && "0123456789"[8] == '8';
      assert "0123456789"[9] == '9';
    }
  }

  /** Rendering a natural number and reading it back gives the number. */
  lemma {:induction false} DecimalRoundTrip(n: nat)
    ensures DecimalValue(NatToDecimal(n)) == n
    decreases n
  {
    if n < 10 {
      DigitRoundTrip(n);
    } else {
      var s := NatToDecimal(n);
      assert s[..|s| - 1] == NatToDecimal(n / 10);
      DecimalRoundTrip(n / 10);
      DigitRoundTrip(n % 10);
    }
  }

  /** Rendering is injective: distinct numbers never render alike. */
  lemma NatToDecimalInjective(m: nat, n: nat)
    requires NatToDecimal(m) == NatToDecimal(n)
    ensures m == n
  {
    DecimalRoundTrip(m);
    DecimalRoundTrip(n);
  }

  /** How PHP and JavaScript render an integer: a minus sign, then the digits. */
  function IntToDecimal(i: int): (s: string)
    ensures 1 <= |s|
    ensures i >= 0 ==> s == NatToDecimal(i)
    ensures i < 0 <==> s[0] == '-'
  {
    if i < 0 then "-" + NatToDecimal(-i) else NatToDecimal(i)
  }

  function Zeros(k: nat): (z: string)
    ensures |z| == k && forall i :: 0 <= i < k ==> z[i] == '0'
  {
    if k == 0 then "" else "0" + Zeros(k - 1)
  }

  /** `sprintf('%0{width}d', n)` for a natural number `n`. */
  function ZeroPadded(n: nat, width: nat): (s: string)
    ensures |s| == if |NatToDecimal(n)| < width then width else |NatToDecimal(n)|
    ensures AllDigits(s)
    ensures DecimalValue(s) == n
  {
    var digits := NatToDecimal(n);
    var s := if |digits| < width then Zeros(width - |digits|) + digits else digits;
    DecimalRoundTrip(n);
    LeadingZerosValue(Zeros(if |digits| < width then width - |digits| else 0), digits);
    assert |digits| >= width ==> s == Zeros(0) + digits;
    s
  }

  /** `sprintf('%02d', n)` below 100: the tens digit, then the units digit. */
  lemma TwoDigitPadding(n: nat)
    requires n < 100
    ensures ZeroPadded(n, 2) == [DigitChar(n / 10), DigitChar(n % 10)]
  {
    if n < 10 {
      assert NatToDecimal(n) == [DigitChar(n)];
      assert Zeros(1) == "0";
      assert DigitChar(0) == '0';
    } else {
      assert NatToDecimal(n / 10) == [DigitChar(n / 10)];
    }
  }

  function Pow10(w: nat): (p: nat)
    ensures p >= 1
  {
    if w == 0 then 1 else 10 * Pow10(w - 1)
  }

  /** A number below `10^w` needs at most `w` digits, so padding to `w` gives exactly `w` characters. */
  lemma {:induction false} PaddedWidth(n: nat, w: nat)
    requires 1 <= w && n < Pow10(w)
    ensures |NatToDecimal(n)| <= w && |ZeroPadded(n, w)| == w
    decreases w
  {
    if n >= 10 {
      assert w >= 2;
      assert n / 10 < Pow10(w - 1);
      PaddedWidth(n / 10, w - 1);
    }
  }

  /** Leading zeros do not change the value of a digit string. */
  lemma {:induction false} LeadingZerosValue(z: string, d: string)
    requires forall i :: 0 <= i < |z| ==> z[i] == '0'
    requires AllDigits(d)
    ensures AllDigits(z + d) && DecimalValue(z + d) == DecimalValue(d)
    decreases |d|
  {
    if d == [] {
      assert z + d == z;
      ZerosValue(z);
    } else {
      var zd := z + d;
      assert zd[..|zd| - 1] == z + d[..|d| - 1];
      LeadingZerosValue(z, d[..|d| - 1]);
    }
  }

  lemma {:induction false} ZerosValue(z: string)
    requires forall i :: 0 <= i < |z| ==> z[i] == '0'
    ensures AllDigits(z) && DecimalValue(z) == 0
    decreases |z|
  {
    if z != [] {
      ZerosValue(z[..|z| - 1]);
    }
  }

  /** PHP `empty()` of a string: the empty string and "0" count as missing. */
  predicate PhpEmpty(s: string) { s == "" || s == "0" }

  /** The characters PHP `trim` strips by default: " \t\n\r\0\x0B". */
  predicate IsPhpSpace(c: char) {
    c == ' ' || c == '\t' || c == '\n' || c == '\r' || c == 0 as char || c == 11 as char
  }

  function TrimStart(s: string): (r: string)
    ensures |r| <= |s|
  {
    if s != [] && IsPhpSpace(s[0]) then TrimStart(s[1..]) else s
  }

  function TrimEnd(s: string): (r: string)
    ensures |r| <= |s|
  {
    if s != [] && IsPhpSpace(s[|s| - 1]) then TrimEnd(s[..|s| - 1]) else s
  }

  /** PHP `trim($s)`: strips the default characters from both ends. */
  function Trim(s: string): (r: string)
    ensures |r| <= |s|
  {
    TrimEnd(TrimStart(s))
  }

  /** `TrimStart` drops a run of strippable characters and stops at the first other one. */
  lemma {:induction false} TrimStartDrops(s: string)
    ensures var r := TrimStart(s);
            r == s[|s| - |r|..] && (forall i :: 0 <= i < |s| - |r| ==> IsPhpSpace(s[i])) && (r != [] ==> !IsPhpSpace(r[0]))
    decreases |s|
  {
    if s != [] && IsPhpSpace(s[0]) {
      TrimStartDrops(s[1..]);
    }
  }

  /** `TrimEnd` drops a run of strippable characters from the end and stops at the last other one. */
  lemma {:induction false} TrimEndDrops(s: string)
    ensures var r := TrimEnd(s);
            r == s[..|r|] && (forall i :: |r| <= i < |s| ==> IsPhpSpace(s[i])) && (r != [] ==> !IsPhpSpace(r[|r| - 1]))
    decreases |s|
  {
    if s != [] && IsPhpSpace(s[|s| - 1]) {
      TrimEndDrops(s[..|s| - 1]);
    }
  }

  /**
   * `trim` keeps one contiguous piece of `s`: everything before and after
   * it is strippable, and the piece neither starts nor ends with a
   * strippable character.
   */
  lemma TrimIsSlice(s: string)
    ensures var a := |s| - |TrimStart(s)|;
            a + |Trim(s)| <= |s| && Trim(s) == s[a..a + |Trim(s)|] &&
            (forall i :: 0 <= i < a ==> IsPhpSpace(s[i])) &&
            (forall i :: a + |Trim(s)| <= i < |s| ==> IsPhpSpace(s[i])) &&
            (Trim(s) != [] ==> !IsPhpSpace(Trim(s)[0]) && !IsPhpSpace(Trim(s)[|Trim(s)| - 1]))
  {
    var u := TrimStart(s);
    TrimStartDrops(s);
    TrimEndDrops(u);
    var a := |s| - |u|;
    var r := Trim(s);
    assert r == u[..|r|];
    forall i | a + |r| <= i < |s|
      ensures IsPhpSpace(s[i])
    {
      assert s[i] == u[i - a];
    }
  }

  /** A string with no strippable character at either end is its own trim. */
  lemma TrimOfTrimmed(s: string)
    requires s != [] ==> !IsPhpSpace(s[0]) && !IsPhpSpace(s[|s| - 1])
    ensures Trim(s) == s
  {
  }

  function AsciiLower(c: char): (d: char)
  {
    if 'A' <= c <= 'Z' then (c as int + 32) as char else c
  }

  function AsciiUpper(c: char): (d: char)
  {
    if 'a' <= c <= 'z' then (c as int - 32) as char else c
  }

  /** PHP 8 `strtolower`: ASCII letters only, independent of locale. */
  function Lower(s: string): (r: string)
    ensures |r| == |s|
    ensures forall i :: 0 <= i < |s| ==> r[i] == AsciiLower(s[i])
  {
    if s == [] then [] else [AsciiLower(s[0])] + Lower(s[1..])
  }

  /** PHP 8 `strtoupper`: ASCII letters only, independent of locale. */
  function Upper(s: string): (r: string)
    ensures |r| == |s|
    ensures forall i :: 0 <= i < |s| ==> r[i] == AsciiUpper(s[i])
  {
    if s == [] then [] else [AsciiUpper(s[0])] + Upper(s[1..])
  }

  lemma LowerAppend(a: string, b: string)
    ensures Lower(a + b) == Lower(a) + Lower(b)
  {
    var l, r := Lower(a + b), Lower(a) + Lower(b);
    assert |l| == |r|;
    forall i | 0 <= i < |l|
      ensures l[i] == r[i]
    {
      if i < |a| {
        assert (a + b)[i] == a[i];
      } else {
        assert (a + b)[i] == b[i - |a|];
      }
    }
  }

  /** Lower-casing, character by character. */
  lemma LowerIs(s: string, t: string)
    requires |s| == |t| && forall i :: 0 <= i < |s| ==> AsciiLower(s[i]) == t[i]
    ensures Lower(s) == t
  {
  }

  /** Upper-casing, character by character. */
  lemma UpperIs(s: string, t: string)
    requires |s| == |t| && forall i :: 0 <= i < |s| ==> AsciiUpper(s[i]) == t[i]
    ensures Upper(s) == t
  {
  }

  /** `str_replace(from, to, s)` for one-character `from` and `to`. */
  function ReplaceChar(s: string, from: char, to: char): (r: string)
    ensures |r| == |s|
    ensures forall i :: 0 <= i < |s| ==> r[i] == if s[i] == from then to else s[i]
  {
    if s == [] then [] else [if s[0] == from then to else s[0]] + ReplaceChar(s[1..], from, to)
  }
}
