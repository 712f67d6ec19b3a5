/**
 * PHP `bin2hex`, used on the 32 random bytes of a CSRF token and of a
 * password-reset token, and its inverse `hex2bin`, whose existence shows
 * that distinct byte strings give distinct tokens.
 */
module Hex {

  type Byte = b: int | 0 <= b < 256

  predicate IsLowerHex(c: char) { '0' <= c <= '9' || 'a' <= c <= 'f' }

  predicate AllLowerHex(s: string) { forall i :: 0 <= i < |s| ==> IsLowerHex(s[i]) }

  function HexDigit(d: nat): (c: char)
    requires d < 16
    ensures IsLowerHex(c)
  {
    "0123456789abcdef"[d]
  }

  function NibbleValue(c: char): (d: nat)
    requires IsLowerHex(c)
    ensures d < 16
  {
    if c <= '9' then (c as int) - ('0' as int) else (c as int) - ('a' as int) + 10
  }

  lemma NibbleRoundTrip(d: nat)
    requires d < 16
    ensures NibbleValue(HexDigit(d)) == d
  {
    var digits := "0123456789abcdef";
    assert digits[0] == '0' && digits[1] == '1' && digits[2] == '2' && digits[3] == '3';
    assert digits[4] == '4' && digits[5] == '5' && digits[6] == '6' && digits[7] == '7';
    assert digits[8] == '8' && digits[9] == '9' && digits[10] == 'a' && digits[11] == 'b';
    assert digits[12] == 'c' && digits[13] == 'd' && digits[14] == 'e' && digits[15] == 'f';
  }

  /** `bin2hex`: two lower-case hexadecimal digits per byte, high nibble first. */
  function Bin2Hex(bytes: seq<Byte>): (s: string)
    ensures |s| == 2 * |bytes|
    ensures AllLowerHex(s)
  {
    if bytes == [] then ""
    else [HexDigit(bytes[0] / 16), HexDigit(bytes[0] % 16)] + Bin2Hex(bytes[1..])
  }

  /** `hex2bin` on a well-formed lower-case hexadecimal string. */
  function Hex2Bin(s: string): (bytes: seq<Byte>)
    requires |s| % 2 == 0 && AllLowerHex(s)
    ensures |bytes| == |s| / 2
  {
    if s == [] then [] else [NibbleValue(s[0]) * 16 + NibbleValue(s[1])] + Hex2Bin(s[2..])
  }

  /** Decoding an encoded byte string gives the bytes back. */
  lemma {:induction false} HexRoundTrip(bytes: seq<Byte>)
    ensures Hex2Bin(Bin2Hex(bytes)) == bytes
  {
    if bytes != [] {
      var s := Bin2Hex(bytes);
      assert s[2..] == Bin2Hex(bytes[1..]);
      NibbleRoundTrip(bytes[0] / 16);
      NibbleRoundTrip(bytes[0] % 16);
      HexRoundTrip(bytes[1..]);
    }
  }

  /** Distinct byte strings never share an encoding. */
  lemma Bin2HexInjective(a: seq<Byte>, b: seq<Byte>)
    ensures Bin2Hex(a) == Bin2Hex(b) ==> a == b
  {
    HexRoundTrip(a);
    HexRoundTrip(b);
  }
}
