/** The canvas filter the edit panel applies to a generated picture, as the
    ordered list of CSS filter functions it is composed of. */
module EditFilter {
  import opened Records

  /** A CSS filter argument: a plain number or a percentage. */
  datatype Amount = Ratio(ratio: real) | Percent(percent: int)

  /** The CSS filter functions the edit panel uses. */
  datatype FilterFn =
    | SepiaFn(amount: Amount)
    | GrayscaleFn(amount: Amount)
    | ContrastFn(amount: Amount)
    | BrightnessFn(amount: Amount)
    | SaturateFn(amount: Amount)

  /** `sepia(warmth / 100)`: warmth is a slider value in hundredths. */
  function WarmthToken(warmth: int): FilterFn {
    SepiaFn(Ratio(warmth as real / 100.0))
  }

  const GrayscaleToken := GrayscaleFn(Percent(100))

  /** `sepia(0.5) contrast(0.9) brightness(1.1) saturate(0.8)` */
  const VintageTokens := [SepiaFn(Ratio(0.5)), ContrastFn(Ratio(0.9)), BrightnessFn(Ratio(1.1)), SaturateFn(Ratio(0.8))]

  /** `brightness(<b>%)` */
  function BrightnessToken(brightness: int): FilterFn {
    BrightnessFn(Percent(brightness))
  }

  /** The warmth slider adds a sepia tint when the sepia filter is chosen or the
      warmth is positive. */
  predicate Warms(e: EditSettings) {
    e.filter == Sepia || e.warmth > 0
  }

  /** The filter string of the edit panel: an optional warmth tint, then the
      chosen filter's functions, and the brightness percentage last. */
  function FilterTokens(e: EditSettings): (tokens: seq<FilterFn>)
    ensures |tokens| == (if Warms(e) then 1 else 0) + (if e.filter == Grayscale then 1 else 0)
                        + (if e.filter == Vintage then 4 else 0) + 1
    ensures tokens[|tokens| - 1] == BrightnessToken(e.brightness)
    ensures e.filter == Vintage ==> tokens[|tokens| - 5..|tokens| - 1] == VintageTokens
  {
    var warmth := if Warms(e) then [WarmthToken(e.warmth)] else [];
    var gray := if e.filter == Grayscale then [GrayscaleToken] else [];
    var vintage := if e.filter == Vintage then VintageTokens else [];
    var tokens := warmth + gray + vintage + [BrightnessToken(e.brightness)];
    assert e.filter == Vintage ==> tokens[|tokens| - 5..|tokens| - 1] == vintage;
    tokens
  }

  /** Each setting shows up in the filter exactly when it is in effect, and the
      brightness percentage is set once, at the end. */
  lemma FilterTokensReflectSettings(e: EditSettings)
    ensures var tokens := FilterTokens(e);
            && (forall i :: 0 <= i < |tokens| - 1 ==> !(tokens[i].BrightnessFn? && tokens[i].amount.Percent?))
            && (tokens[0] == WarmthToken(e.warmth) <==> Warms(e))
            && (GrayscaleToken in tokens <==> e.filter == Grayscale)
            && (ContrastFn(Ratio(0.9)) in tokens <==> e.filter == Vintage)
  {
    var warmth := if Warms(e) then [WarmthToken(e.warmth)] else [];
    var gray := if e.filter == Grayscale then [GrayscaleToken] else [];
    var vintage := if e.filter == Vintage then VintageTokens else [];
    var tokens := warmth + gray + vintage + [BrightnessToken(e.brightness)];
    assert FilterTokens(e) == tokens;
    assert e.filter != Vintage ==> forall i :: 0 <= i < |tokens| ==> !tokens[i].ContrastFn?;
  }

  /** The settings every new result starts from render the picture as it is:
      the only filter function is `brightness(100%)`. */
  lemma DefaultEditsAreNeutral()
    ensures FilterTokens(DefaultEdits) == [BrightnessToken(100)]
  {
  }
}
