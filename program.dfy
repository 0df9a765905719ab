/**
 * The comparison `main` runs on two hex strings: parse both (a parse error is fatal),
 * then evaluate the contrast. Reading the arguments or standard input and printing
 * the messages are not modelled; the strings arrive as parameters.
 */
module Program {
  import opened Wrappers
  import opened Hex
  import opened ColorParser
  import opened Contrast

  /** How a run ends. */
  datatype Report =
    | FirstHexError(error: ParseError)
    | SecondHexError(error: ParseError)
    | Compared(outcome: Outcome)

  /** `log.Fatalf` exits with status 1; every completed comparison exits with 0. */
  function ExitStatus(r: Report): (status: int)
    ensures status == 0 <==> r.Compared?
    ensures status == 0 || status == 1
  {
    if r.Compared? then 0 else 1
  }

  /** What a run on `hex1` and `hex2` reports: the first parse error, else the verdict. */
  function RunSpec(hex1: string, hex2: string): (r: Report)
    ensures r.FirstHexError? <==> Parse(hex1).Failure?
    ensures r.SecondHexError? <==> Parse(hex1).Success? && Parse(hex2).Failure?
    ensures r.FirstHexError? ==> r.error == Parse(hex1).error
    ensures r.SecondHexError? ==> r.error == Parse(hex2).error
    ensures r.Compared? ==> r.outcome == Evaluate(Parse(hex1).value, Parse(hex2).value)
  {
    match Parse(hex1)
    case Failure(e) => FirstHexError(e)
    case Success(c1) =>
      match Parse(hex2)
      case Failure(e) => SecondHexError(e)
      case Success(c2) => Compared(Evaluate(c1, c2))
  }

  /**
   * Lines 77-103 of `main`: set two fresh colours from the strings, stopping at the first
   * error, and compare their values.
   */
  method CheckColors(hex1: string, hex2: string) returns (r: Report)
    ensures r == RunSpec(hex1, hex2)
    ensures ExitStatus(r) == 0 <==> Parse(hex1).Success? && Parse(hex2).Success?
    ensures r.Compared? ==> FiguresInRange(r.outcome)
  {
    var color1 := new Color();
    var err := color1.Set(hex1);
    if err.Some? {
      return FirstHexError(err.value);
    }

    var color2 := new Color();
    err := color2.Set(hex2);
    if err.Some? {
      return SecondHexError(err.value);
    }

    assert color1.Valid() && color2.Valid();
    EvaluateBounds(color1.Value(), color2.Value());
    return Compared(Evaluate(color1.Value(), color2.Value()));
  }

  /** A six-digit string without '#', with or without one '#' in front, parses to `c`. */
  lemma ParsedHexColor(s: string, c: Rgb)
    requires |s| == 6 && AllHex(s) && s[0] != '#'
    requires c == Rgb(PairValue(s[0], s[1]), PairValue(s[2], s[3]), PairValue(s[4], s[5]))
    ensures Parse(s) == Success(c) && Parse("#" + s) == Success(c)
  {
    assert TrimLeftHashes(s) == s;
    ParseSuccess(s);
    ParseAfterHashes(1, s);
  }

  // The colours of the examples below, as `Set` parses them: one string per lemma keeps
  // each proof small.

  lemma ParseBlack()
    ensures Parse("#000000") == Success(Rgb(0, 0, 0))
  {
    ParsedHexColor("000000", Rgb(0, 0, 0));
  }

  lemma ParseBareBlack()
    ensures Parse("000000") == Success(Rgb(0, 0, 0))
  {
    ParsedHexColor("000000", Rgb(0, 0, 0));
  }

  lemma ParseWhite()
    ensures Parse("#FFFFFF") == Success(Rgb(255, 255, 255))
  {
    ParsedHexColor("FFFFFF", Rgb(255, 255, 255));
  }

  lemma ParseGrey77()
    ensures Parse("#777777") == Success(Rgb(119, 119, 119))
  {
    ParsedHexColor("777777", Rgb(119, 119, 119));
  }

  lemma ParseGrey78()
    ensures Parse("#787878") == Success(Rgb(120, 120, 120))
  {
    ParsedHexColor("787878", Rgb(120, 120, 120));
  }

  lemma ParseRedFF()
    ensures Parse("#FF0000") == Success(Rgb(255, 0, 0))
  {
    ParsedHexColor("FF0000", Rgb(255, 0, 0));
  }

  lemma ParseRedFE()
    ensures Parse("#FE0000") == Success(Rgb(254, 0, 0))
  {
    ParsedHexColor("FE0000", Rgb(254, 0, 0));
  }

  lemma ParseGreen()
    ensures Parse("#00ff00") == Success(Rgb(0, 255, 0))
  {
    ParsedHexColor("00ff00", Rgb(0, 255, 0));
  }

  lemma ParseNonHex()
    ensures Parse("GGGGGG") == Failure(BadHex(RedChannel, "GG"))
  {
    assert TrimLeftHashes("GGGGGG") == "GGGGGG";
    assert "GGGGGG"[..2] == "GG";
  }

  /** Black on white: both thresholds are met with the largest possible figures. */
  lemma BlackOnWhite()
    ensures RunSpec("#000000", "#FFFFFF") == Compared(Acceptable(255, 765))
  {
    ParseBlack();
    ParseWhite();
    EvaluateBlackOnWhite();
  }

  /** Two greys one step apart fail on brightness, which differs by 1. */
  lemma NearGreys()
    ensures RunSpec("#777777", "#787878") == Compared(BrightnessTooLow(1))
  {
    ParseGrey77();
    ParseGrey78();
    EvaluateNearGreys();
  }

  /** Two reds one step apart: the brightness check comes first and fails. */
  lemma NearReds()
    ensures RunSpec("#FF0000", "#FE0000") == Compared(BrightnessTooLow(1))
  {
    ParseRedFF();
    ParseRedFE();
    EvaluateNearReds();
  }

  /** Black against pure green, one of them without '#': colour difference fails. */
  lemma BlackOnGreen()
    ensures RunSpec("000000", "#00ff00") == Compared(ColorTooLow(255))
  {
    ParseBareBlack();
    ParseGreen();
    EvaluateBlackOnGreen();
  }

  /** Five digits are a fatal length error on the first colour, quoting the input. */
  lemma ShortFirstHex()
    ensures RunSpec("12345", "#FFFFFF") == FirstHexError(InvalidLength("12345"))
    ensures ExitStatus(RunSpec("12345", "#FFFFFF")) == 1
  {
    assert TrimLeftHashes("12345") == "12345";
  }

  /** "GGGGGG" fails on its red pair, "GG", and the run stops with a fatal error. */
  lemma NonHexSecond()
    ensures RunSpec("#000000", "GGGGGG") == SecondHexError(BadHex(RedChannel, "GG"))
  {
    ParseBlack();
    ParseNonHex();
  }
}
