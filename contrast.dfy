/**
 * The colour-contrast test of technique 2.2.1 of the W3C Techniques For Accessibility
 * Evaluation And Repair Tools draft: brightness difference first, then colour difference,
 * against fixed thresholds.
 */
module Contrast {
  import opened ColorParser

  const AcceptableBrightnessDifference := 125
  const AcceptableColorDifference := 500

  function Abs(x: int): (r: nat)
    ensures r == x || r == -x
  {
    if x < 0 then -x else x
  }

  /** Go's local `max`: the larger argument. */
  function Max(x: int, y: int): (r: int)
    ensures r >= x && r >= y && (r == x || r == y)
  {
    if x > y then x else y
  }

  /** Go's local `min`: the smaller argument. */
  function Min(x: int, y: int): (r: int)
    ensures r <= x && r <= y && (r == x || r == y)
  {
    if x > y then y else x
  }

  /** Channel weights of the brightness formula, in thousandths; they sum to 1000. */
  const RedWeight := 299
  const GreenWeight := 587
  const BlueWeight := 114

  /** The weighted channel sum, before the division by 1000. */
  function WeightedSum(c: Rgb): int {
    c.Red * RedWeight + c.Green * GreenWeight + c.Blue * BlueWeight
  }

  /**
   * Perceived brightness: the weighted sum divided by 1000, truncating toward zero as
   * Go's `/` on `int` does (Dafny's `/` is Euclidean, so negative sums are negated first).
   */
  function Brightness(c: Rgb): (b: int)
    ensures WeightedSum(c) >= 0 ==> 0 <= b * 1000 <= WeightedSum(c) < b * 1000 + 1000
    ensures WeightedSum(c) < 0 ==> b * 1000 - 1000 < WeightedSum(c) <= b * 1000 <= 0
    ensures InRange(c) ==> 0 <= b <= 255
  {
    var w := WeightedSum(c);
    if w >= 0 then w / 1000 else -((-w) / 1000)
  }

  /** Black is the darkest colour and white the brightest. */
  lemma BrightnessExtremes()
    ensures Brightness(Rgb(0, 0, 0)) == 0
    ensures Brightness(Rgb(255, 255, 255)) == 255
  {
  }

  /** The weights sum to 1000, so a grey's brightness is its channel value. */
  lemma BrightnessOfGrey(v: int)
    ensures Brightness(Rgb(v, v, v)) == v
  {
    assert WeightedSum(Rgb(v, v, v)) == v * 1000;
  }

  /** Raising no channel lowers brightness, for colours with byte channels. */
  lemma BrightnessMonotone(a: Rgb, b: Rgb)
    requires InRange(a) && InRange(b)
    requires a.Red <= b.Red && a.Green <= b.Green && a.Blue <= b.Blue
    ensures Brightness(a) <= Brightness(b)
  {
    assert WeightedSum(a) <= WeightedSum(b);
  }

  function BrightnessDifference(a: Rgb, b: Rgb): (d: int)
    ensures d >= 0
    ensures d == Brightness(a) - Brightness(b) || d == Brightness(b) - Brightness(a)
  {
    var diff := Brightness(a) - Brightness(b);
    if diff < 0 then -diff else diff
  }

  function ColorDifference(a: Rgb, b: Rgb): (d: int)
    ensures d == Abs(a.Red - b.Red) + Abs(a.Green - b.Green) + Abs(a.Blue - b.Blue)
  {
    (Max(a.Red, b.Red) - Min(a.Red, b.Red)) +
    (Max(a.Green, b.Green) - Min(a.Green, b.Green)) +
    (Max(a.Blue, b.Blue) - Min(a.Blue, b.Blue))
  }

  /** Both metrics are symmetric in their two colours. */
  lemma DifferencesSymmetric(a: Rgb, b: Rgb)
    ensures BrightnessDifference(a, b) == BrightnessDifference(b, a)
    ensures ColorDifference(a, b) == ColorDifference(b, a)
  {
  }

  /**
   * Both metrics are zero on equal colours; colour difference is zero only then, while
   * distinct colours of equal brightness exist.
   */
  lemma DifferencesZero(a: Rgb, b: Rgb)
    ensures a == b ==> BrightnessDifference(a, b) == 0 && ColorDifference(a, b) == 0
    ensures ColorDifference(a, b) == 0 <==> a == b
    ensures BrightnessDifference(a, b) == 0 <==> Brightness(a) == Brightness(b)
  {
  }

  /** Equal brightness does not imply equal colours: 000000 and 010000 both have brightness 0. */
  lemma BrightnessDifferenceZeroNotEqual()
    ensures BrightnessDifference(Rgb(0, 0, 0), Rgb(1, 0, 0)) == 0
  {
  }

  /** For byte channels the metrics range over [0, 255] and [0, 765]. */
  lemma DifferencesBounded(a: Rgb, b: Rgb)
    requires InRange(a) && InRange(b)
    ensures 0 <= BrightnessDifference(a, b) <= 255
    ensures 0 <= ColorDifference(a, b) <= 765
  {
  }

  /** The verdict on a pair of colours, as `main` prints it (exit status 0 in all three). */
  datatype Outcome =
    | BrightnessTooLow(bd: int)
    | ColorTooLow(cd: int)
    | Acceptable(bd: int, cd: int)

  /**
   * Brightness difference is checked first; colour difference is consulted only when
   * brightness passes.
   */
  function Evaluate(c1: Rgb, c2: Rgb): (o: Outcome)
    ensures o.BrightnessTooLow? <==> BrightnessDifference(c1, c2) < AcceptableBrightnessDifference
    ensures o.ColorTooLow? <==>
      BrightnessDifference(c1, c2) >= AcceptableBrightnessDifference &&
      ColorDifference(c1, c2) < AcceptableColorDifference
    ensures o.Acceptable? <==>
      BrightnessDifference(c1, c2) >= AcceptableBrightnessDifference &&
      ColorDifference(c1, c2) >= AcceptableColorDifference
    ensures !o.ColorTooLow? ==> o.bd == BrightnessDifference(c1, c2)
    ensures !o.BrightnessTooLow? ==> o.cd == ColorDifference(c1, c2)
  {
    var bd := BrightnessDifference(c1, c2);
    if bd < AcceptableBrightnessDifference then BrightnessTooLow(bd)
    else
      var cd := ColorDifference(c1, c2);
      if cd < AcceptableColorDifference then ColorTooLow(cd)
      else Acceptable(bd, cd)
  }

  /** The verdict does not depend on which colour comes first. */
  lemma EvaluateSymmetric(c1: Rgb, c2: Rgb)
    ensures Evaluate(c1, c2) == Evaluate(c2, c1)
  {
    DifferencesSymmetric(c1, c2);
  }

  /** A colour never contrasts with itself. */
  lemma EvaluateSame(c: Rgb)
    ensures Evaluate(c, c) == BrightnessTooLow(0)
  {
    DifferencesZero(c, c);
  }

  /** Every figure an outcome reports lies in the range its branch allows for byte channels. */
  predicate FiguresInRange(o: Outcome)
  {
    match o
    case BrightnessTooLow(bd) => 0 <= bd < 125
    case ColorTooLow(cd) => 0 <= cd < 500
    case Acceptable(bd, cd) => 125 <= bd <= 255 && 500 <= cd <= 765
  }

  /** For byte channels every reported figure lies in the range its branch allows. */
  lemma EvaluateBounds(c1: Rgb, c2: Rgb)
    requires InRange(c1) && InRange(c2)
    ensures FiguresInRange(Evaluate(c1, c2))
  {
    DifferencesBounded(c1, c2);
  }

  /** Black on white passes both thresholds with the largest possible figures. */
  lemma EvaluateBlackOnWhite()
    ensures Evaluate(Rgb(0, 0, 0), Rgb(255, 255, 255)) == Acceptable(255, 765)
  {
  }

  /** Greys 777777 and 787878 have brightness 119 and 120. */
  lemma EvaluateNearGreys()
    ensures Evaluate(Rgb(119, 119, 119), Rgb(120, 120, 120)) == BrightnessTooLow(1)
  {
  }

  /**
   * Reds ff0000 and fe0000 have brightness 76 and 75: the brightness check fails, so
   * their colour difference of 1 is never reported.
   */
  lemma EvaluateNearReds()
    ensures Evaluate(Rgb(255, 0, 0), Rgb(254, 0, 0)) == BrightnessTooLow(1)
  {
  }

  /** Black on pure green passes brightness (149) but not colour difference (255). */
  lemma EvaluateBlackOnGreen()
    ensures Evaluate(Rgb(0, 0, 0), Rgb(0, 255, 0)) == ColorTooLow(255)
  {
  }
}
