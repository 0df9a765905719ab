/**
 * The `color` struct of main.go and its `Set` method, which parses a six-digit hex
 * colour such as "#1a2B3c" into its Red, Green and Blue channels.
 */
module ColorParser {
  import opened Wrappers
  import opened Hex

  /** A colour passed by value, as the contrast functions receive it. */
  datatype Rgb = Rgb(Red: int, Green: int, Blue: int)

  /** Every channel is a byte, as `Set` leaves it. */
  predicate InRange(c: Rgb) {
    0 <= c.Red < 256 && 0 <= c.Green < 256 && 0 <= c.Blue < 256
  }

  datatype Channel = RedChannel | GreenChannel | BlueChannel

  /** Position of a channel's digit pair in the six-digit form. */
  function ChannelIndex(ch: Channel): (k: nat)
    ensures k < 3
  {
    match ch
    case RedChannel => 0
    case GreenChannel => 1
    case BlueChannel => 2
  }

  /**
   * The errors `Set` can return, each with the text its message quotes. The last two
   * are the defensive checks, which no input reaches.
   */
  datatype ParseError =
    | InvalidLength(trimmed: string)
    | BadHex(channel: Channel, pair: string)
    | HexValueTooLarge(bytes: seq<Byte>)
    | ChannelTooLarge(channel: Channel, value: int)

  /** A run of `n` '#' characters. */
  function Hashes(n: nat): (h: string)
    ensures |h| == n && forall i :: 0 <= i < n ==> h[i] == '#'
  {
    seq(n, _ => '#')
  }

  /** `strings.TrimLeft(s, "#")`: `s` without its leading run of '#'. */
  function TrimLeftHashes(s: string): (r: string)
    ensures |r| <= |s| && s == Hashes(|s| - |r|) + r
    ensures r == [] || r[0] != '#'
  {
    if |s| > 0 && s[0] == '#' then
      var r := TrimLeftHashes(s[1..]);
      assert Hashes(|s| - |r|) == [s[0]] + Hashes(|s| - 1 - |r|);
      r
    else
      assert Hashes(0) + s == s;
      s
  }

  /** Any number of leading '#' characters are stripped, not only one. */
  lemma {:induction false} TrimLeftHashesAfterHashes(n: nat, s: string)
    ensures TrimLeftHashes(Hashes(n) + s) == TrimLeftHashes(s)
  {
    if n > 0 {
      assert (Hashes(n) + s)[0] == '#';
      assert (Hashes(n) + s)[1..] == Hashes(n - 1) + s;
      TrimLeftHashesAfterHashes(n - 1, s);
    } else {
      assert Hashes(n) + s == s;
    }
  }

  /** Both characters of a digit pair are hex digits. */
  predicate IsHexPair(p: string)
    requires |p| == 2
  {
    IsHexDigit(p[0]) && IsHexDigit(p[1])
  }

  /** The six-digit step of `Set`, once the leading '#'s are gone. */
  function ParseDigits(s: string): (r: Result<Rgb, ParseError>)
    ensures r.Success? ==> InRange(r.value)
  {
    if |s| != 6 then Failure(InvalidLength(s))
    else if !IsHexPair(s[..2]) then Failure(BadHex(RedChannel, s[..2]))
    else if !IsHexPair(s[2..4]) then Failure(BadHex(GreenChannel, s[2..4]))
    else if !IsHexPair(s[4..]) then Failure(BadHex(BlueChannel, s[4..]))
    else Success(Rgb(PairValue(s[0], s[1]), PairValue(s[2], s[3]), PairValue(s[4], s[5])))
  }

  /** The channels `Set` writes for `input`, or the error it returns. */
  function Parse(input: string): (r: Result<Rgb, ParseError>)
    ensures r.Success? ==> InRange(r.value)
  {
    ParseDigits(TrimLeftHashes(input))
  }

  /** Leading '#' characters, however many, do not change the parse. */
  lemma ParseAfterHashes(n: nat, s: string)
    ensures Parse(Hashes(n) + s) == Parse(s)
    ensures Parse("#" + s) == Parse(s) && Parse("##" + s) == Parse(s)
  {
    TrimLeftHashesAfterHashes(n, s);
    TrimLeftHashesAfterHashes(1, s);
    TrimLeftHashesAfterHashes(2, s);
    assert Hashes(1) == "#" && Hashes(2) == "##";
  }

  /** `ParseDigits` succeeds exactly on six hex digits and then decodes the three pairs. */
  lemma DigitsSuccess(s: string)
    ensures ParseDigits(s).Success? <==> |s| == 6 && AllHex(s)
    ensures ParseDigits(s).Success? ==>
      ParseDigits(s).value == Rgb(PairValue(s[0], s[1]), PairValue(s[2], s[3]), PairValue(s[4], s[5]))
  {
    if |s| == 6 && !AllHex(s) {
      var i :| 0 <= i < 6 && !IsHexDigit(s[i]);
      DigitsBadDigit(s, i);
    }
  }

  /** A non-hex digit among the six fails on its own pair or an earlier one. */
  lemma DigitsBadDigit(s: string, i: nat)
    requires |s| == 6 && i < 6 && !IsHexDigit(s[i])
    ensures ParseDigits(s).Failure? && ParseDigits(s).error.BadHex?
    ensures ChannelIndex(ParseDigits(s).error.channel) <= i / 2
    ensures var k := ChannelIndex(ParseDigits(s).error.channel);
      ParseDigits(s).error.pair == s[2 * k..2 * k + 2] && !IsHexPair(ParseDigits(s).error.pair)
  {
    assert s[4..] == s[4..6];
  }

  /**
   * Parsing succeeds exactly when six hex digits remain after the '#'s, and then the
   * channels are the bytes of digits [0:2], [2:4] and [4:6], in that order.
   */
  lemma ParseSuccess(input: string)
    ensures var s := TrimLeftHashes(input);
      Parse(input).Success? <==> |s| == 6 && AllHex(s)
    ensures var s := TrimLeftHashes(input);
      Parse(input).Success? ==>
        Parse(input).value == Rgb(PairValue(s[0], s[1]), PairValue(s[2], s[3]), PairValue(s[4], s[5]))
  {
    DigitsSuccess(TrimLeftHashes(input));
  }

  /** The length check comes first: any length but six fails, quoting the stripped input. */
  lemma ParseLength(input: string)
    ensures Parse(input).Failure? && Parse(input).error.InvalidLength? <==> |TrimLeftHashes(input)| != 6
    ensures Parse(input).Failure? && Parse(input).error.InvalidLength? ==>
      Parse(input).error.trimmed == TrimLeftHashes(input)
  {
  }

  /**
   * A non-hex character at position `i` of the six makes parsing fail on its own pair
   * or on an earlier one: pairs are checked red, then green, then blue, and the error
   * quotes the first bad pair.
   */
  lemma ParseBadDigit(input: string, i: nat)
    requires var s := TrimLeftHashes(input); |s| == 6 && i < 6 && !IsHexDigit(s[i])
    ensures Parse(input).Failure? && Parse(input).error.BadHex?
    ensures ChannelIndex(Parse(input).error.channel) <= i / 2
    ensures var s := TrimLeftHashes(input); var k := ChannelIndex(Parse(input).error.channel);
      Parse(input).error.pair == s[2 * k..2 * k + 2] && !IsHexPair(Parse(input).error.pair)
  {
    DigitsBadDigit(TrimLeftHashes(input), i);
  }

  /** The defensive errors are never produced. */
  lemma ParseNeverTooLarge(input: string)
    ensures Parse(input).Failure? ==>
      Parse(input).error.InvalidLength? || Parse(input).error.BadHex?
  {
  }

  /** A colour written as six lower-case hex digits. */
  function Encode(c: Rgb): (s: string)
    requires InRange(c)
    ensures |s| == 6 && AllHex(s) && ToLowerAsciiString(s) == s
  {
    EncodeByte(c.Red) + EncodeByte(c.Green) + EncodeByte(c.Blue)
  }

  /** Encoding the colour six hex digits parse to gives the digits back, lower-cased. */
  lemma EncodeDigits(s: string)
    requires ParseDigits(s).Success?
    ensures Encode(ParseDigits(s).value) == ToLowerAsciiString(s)
  {
    DigitsSuccess(s);
    var c := ParseDigits(s).value;
    EncodePairValue(s[0], s[1]);
    EncodePairValue(s[2], s[3]);
    EncodePairValue(s[4], s[5]);
    var l := ToLowerAsciiString(s);
    calc {
      Encode(c);
      EncodeByte(c.Red) + EncodeByte(c.Green) + EncodeByte(c.Blue);
      [l[0], l[1]] + [l[2], l[3]] + [l[4], l[5]];
      l;
    }
  }

  /** Encoding a parsed colour gives back the stripped input, lower-cased. */
  lemma EncodeParse(input: string)
    requires Parse(input).Success?
    ensures Encode(Parse(input).value) == ToLowerAsciiString(TrimLeftHashes(input))
  {
    EncodeDigits(TrimLeftHashes(input));
  }

  /** The six digits of an encoded colour decode to that colour. */
  lemma DigitsEncode(c: Rgb)
    requires InRange(c)
    ensures ParseDigits(Encode(c)) == Success(c)
  {
    var s := Encode(c);
    DigitsSuccess(s);
    var r, g, b := EncodeByte(c.Red), EncodeByte(c.Green), EncodeByte(c.Blue);
    assert s[0] == r[0] && s[1] == r[1] && s[2] == g[0] && s[3] == g[1] && s[4] == b[0] && s[5] == b[1];
  }

  /** Parsing an encoded colour, with or without a leading '#', gives the colour back. */
  lemma ParseEncode(c: Rgb)
    requires InRange(c)
    ensures Parse(Encode(c)) == Success(c)
    ensures Parse("#" + Encode(c)) == Success(c)
  {
    var s := Encode(c);
    assert IsHexDigit(s[0]);
    assert TrimLeftHashes(s) == s;
    DigitsEncode(c);
    ParseAfterHashes(1, s);
  }

  /** The Go `color` struct behind a pointer: `Set` updates its fields in place. */
  class Color {
    var Red: int
    var Green: int
    var Blue: int

    /** The struct's value, as `*c` copies it. */
    function Value(): Rgb
      reads this
    {
      Rgb(Red, Green, Blue)
    }

    /** Every channel is a byte. */
    ghost predicate Valid()
      reads this
    {
      InRange(Value())
    }

    /** `&color{}`: all channels zero. */
    constructor ()
      ensures Value() == Rgb(0, 0, 0) && Valid()
    {
      Red, Green, Blue := 0, 0, 0;
    }

    /**
     * Parses `input` into the three channels. On an error the fields keep their old
     * values: they are only written once all three pairs have decoded.
     */
    method Set(input: string) returns (err: Option<ParseError>)
      modifies this
      ensures err.None? <==> Parse(input).Success?
      ensures err.None? ==> Value() == Parse(input).value && Valid()
      ensures err.Some? ==> err.value == Parse(input).error && Value() == old(Value())
      ensures err.Some? ==> !err.value.HexValueTooLarge? && !err.value.ChannelTooLarge?
    {
      var s := TrimLeftHashes(input);
      if |s| != 6 {
        return Some(InvalidLength(s));
      }
      var redHex, greenHex, blueHex := s[..2], s[2..4], s[4..];
      assert Parse(input) == ParseDigits(s);

      var red := DecodeString(redHex);
      DecodePair(redHex);
      if red.Failure? {
        return Some(BadHex(RedChannel, redHex));
      }
      var redBytes := red.value;
      if |redBytes| > 1 {
        return Some(HexValueTooLarge(redBytes));
      }

      var green := DecodeString(greenHex);
      DecodePair(greenHex);
      if green.Failure? {
        return Some(BadHex(GreenChannel, greenHex));
      }
      var greenBytes := green.value;
      if |greenBytes| > 1 {
        return Some(HexValueTooLarge(greenBytes));
      }

      var blue := DecodeString(blueHex);
      DecodePair(blueHex);
      if blue.Failure? {
        return Some(BadHex(BlueChannel, blueHex));
      }
      var blueBytes := blue.value;
      if |blueBytes| > 1 {
        return Some(HexValueTooLarge(blueBytes));
      }

      Red := redBytes[0];
      if Red > 255 {
        return Some(ChannelTooLarge(RedChannel, Red));
      }

      Green := greenBytes[0];
      if Green > 255 {
        return Some(ChannelTooLarge(GreenChannel, Green));
      }

      Blue := blueBytes[0];
      if Blue > 255 {
        return Some(ChannelTooLarge(BlueChannel, Blue));
      }
      return None;
    }
  }
}
