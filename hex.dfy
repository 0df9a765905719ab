/**
 * Hexadecimal digits in the base16 alphabet of section 8 of RFC 4648: decoding accepts
 * both cases, encoding produces lower case. `DecodeString` states what Go's
 * `hex.DecodeString` returns, one character standing for one byte of the input.
 */
module Hex {
  import opened Wrappers

  /** One decoded byte. */
  type Byte = x: int | 0 <= x < 256

  predicate IsHexDigit(c: char) {
    '0' <= c <= '9' || 'a' <= c <= 'f' || 'A' <= c <= 'F'
  }

  /** Every character of `s` is a hex digit. */
  predicate AllHex(s: string) {
    forall i :: 0 <= i < |s| ==> IsHexDigit(s[i])
  }

  /** The value of one hex digit. */
  function DigitValue(c: char): (v: nat)
    requires IsHexDigit(c)
    ensures v < 16
    ensures ('0' <= c <= '9') == (v < 10)
  {
    if '0' <= c <= '9' then c as int - '0' as int
    else if 'a' <= c <= 'f' then c as int - 'a' as int + 10
    else c as int - 'A' as int + 10
  }

  /** The lower-case hex digit whose value is `v`. */
  function LowerDigit(v: nat): (c: char)
    requires v < 16
    ensures IsHexDigit(c) && DigitValue(c) == v
    ensures !('A' <= c <= 'F')
  {
    if v < 10 then ('0' as int + v) as char else ('a' as int + v - 10) as char
  }

  /** ASCII lower-casing: only 'A'..'Z' change. */
  function ToLowerAscii(c: char): char {
    if 'A' <= c <= 'Z' then (c as int - 'A' as int + 'a' as int) as char else c
  }

  function ToLowerAsciiString(s: string): (l: string)
    ensures |l| == |s| && forall i :: 0 <= i < |s| ==> l[i] == ToLowerAscii(s[i])
  {
    seq(|s|, i requires 0 <= i < |s| => ToLowerAscii(s[i]))
  }

  /** Re-encoding a digit's value gives back the digit, lower-cased. */
  lemma LowerDigitOfValue(c: char)
    requires IsHexDigit(c)
    ensures LowerDigit(DigitValue(c)) == ToLowerAscii(c)
  {
  }

  /** The byte written by the two hex digits `hi` and `lo`. */
  function PairValue(hi: char, lo: char): (b: Byte)
    requires IsHexDigit(hi) && IsHexDigit(lo)
  {
    DigitValue(hi) * 16 + DigitValue(lo)
  }

  /** The high digit of a pair is its byte's sixteens, the low digit the remainder. */
  lemma PairValueDigits(hi: char, lo: char)
    requires IsHexDigit(hi) && IsHexDigit(lo)
    ensures PairValue(hi, lo) / 16 == DigitValue(hi) && PairValue(hi, lo) % 16 == DigitValue(lo)
  {
  }

  /** The two lower-case hex digits of a byte. */
  function EncodeByte(b: Byte): (s: string)
    ensures |s| == 2 && AllHex(s) && PairValue(s[0], s[1]) == b
    ensures ToLowerAsciiString(s) == s
  {
    [LowerDigit(b / 16), LowerDigit(b % 16)]
  }

  /** Decoding then encoding a pair of hex digits gives the pair back in lower case. */
  lemma EncodePairValue(hi: char, lo: char)
    requires IsHexDigit(hi) && IsHexDigit(lo)
    ensures EncodeByte(PairValue(hi, lo)) == [ToLowerAscii(hi), ToLowerAscii(lo)]
  {
    PairValueDigits(hi, lo);
    LowerDigitOfValue(hi);
    LowerDigitOfValue(lo);
  }

  /** Why a hex string does not decode. */
  datatype HexError = InvalidByte(c: char) | OddLength

  /**
   * Go's `hex.DecodeString`: the bytes written by consecutive digit pairs, or the first
   * character that is not a hex digit, or `OddLength` for a trailing lone digit.
   */
  function DecodeString(s: string): (r: Result<seq<Byte>, HexError>)
    ensures r.Success? <==> |s| % 2 == 0 && AllHex(s)
    ensures r.Success? ==> |r.value| == |s| / 2
    ensures r.Success? ==>
      forall i :: 0 <= i < |r.value| ==> r.value[i] == PairValue(s[2 * i], s[2 * i + 1])
    ensures r.Failure? && r.error.InvalidByte? ==> r.error.c in s && !IsHexDigit(r.error.c)
    ensures r.Failure? && r.error.OddLength? ==> |s| % 2 == 1
    decreases |s|
  {
    if |s| == 0 then Success([])
    else if !IsHexDigit(s[0]) then Failure(InvalidByte(s[0]))
    else if |s| == 1 then Failure(OddLength)
    else if !IsHexDigit(s[1]) then Failure(InvalidByte(s[1]))
    else
      match DecodeString(s[2..])
      case Success(rest) =>
        var r := [PairValue(s[0], s[1])] + rest;
        assert forall i :: 1 <= i < |r| ==> r[i] == rest[i - 1] && s[2 * i] == s[2..][2 * (i - 1)];
        Success(r)
      case Failure(e) => Failure(e)
  }

  /**
   * On two characters `DecodeString` fails exactly when one is not a hex digit, and
   * otherwise yields a single byte, never more.
   */
  lemma DecodePair(p: string)
    requires |p| == 2
    ensures DecodeString(p).Success? <==> IsHexDigit(p[0]) && IsHexDigit(p[1])
    ensures DecodeString(p).Success? ==> DecodeString(p).value == [PairValue(p[0], p[1])]
  {
    assert p[2..] == [];
  }
}
