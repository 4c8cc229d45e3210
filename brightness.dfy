/**
  * Brightness mapping: one RGB pixel to one scalar brightness under one of the
  * three photometric modes of `calculate_brightness` (image-to-ascii.py:96-103).
  * Python floats are idealised as exact reals.
  */
module BrightnessMap {
  import opened Wrappers

  /** One colour channel of an RGB image: an integer in [0,255]. */
  type Channel = c: int | 0 <= c <= 255

  /** A pixel as produced by `Image.convert('RGB')`. */
  datatype Pixel = Pixel(r: Channel, g: Channel, b: Channel)

  /** The three brightness modes accepted on the command line. */
  datatype Mode = Average | Lightness | Luminosity

  /** Weights of the `luminosity` mode, as written in the source. */
  const RedWeight: real := 0.21
  const GreenWeight: real := 0.72
  const BlueWeight: real := 0.07

  /** The command-line spelling of each mode. */
  function ModeName(m: Mode): (s: string)
    ensures |s| > 0
  {
    match m
    case Average => "average"
    case Lightness => "lightness"
    case Luminosity => "luminosity"
  }

  /** The mode a string names, if any: the three literals compared in `calculate_brightness`. */
  function ParseMode(s: string): (r: Option<Mode>)
    ensures forall m :: r == Some(m) <==> s == ModeName(m)
  {
    if s == "average" then Some(Average)
    else if s == "lightness" then Some(Lightness)
    else if s == "luminosity" then Some(Luminosity)
    else None
  }

  /** Python's `max(R, G, B)`. */
  function Max3(a: int, b: int, c: int): (m: int)
    ensures m == a || m == b || m == c
    ensures a <= m && b <= m && c <= m
  {
    if a >= b && a >= c then a else if b >= c then b else c
  }

  /** Python's `min(R, G, B)`. */
  function Min3(a: int, b: int, c: int): (m: int)
    ensures m == a || m == b || m == c
    ensures m <= a && m <= b && m <= c
  {
    if a <= b && a <= c then a else if b <= c then b else c
  }

  /**
    * Brightness of a pixel under a mode. Every mode is a weighted mean of the
    * three channels, so the result lies between the darkest and the brightest
    * channel; in particular it lies in [0,255], and a grey pixel keeps its value.
    */
  function Brightness(p: Pixel, m: Mode): (v: real)
    ensures Min3(p.r, p.g, p.b) as real <= v <= Max3(p.r, p.g, p.b) as real
    ensures 0.0 <= v <= 255.0
    ensures p.r == p.g == p.b ==> v == p.r as real
  {
    match m
    case Average => (p.r + p.g + p.b) as real / 3.0
    case Lightness => (Max3(p.r, p.g, p.b) + Min3(p.r, p.g, p.b)) as real / 2.0
    case Luminosity => RedWeight * p.r as real + GreenWeight * p.g as real + BlueWeight * p.b as real
  }

  /**
    * `calculate_brightness(pixel, mode)` with the mode given as a string: a
    * string other than the three mode names falls through every branch and
    * yields Python's `None`.
    */
  function CalculateBrightness(p: Pixel, mode: string): (r: Option<real>)
    ensures forall m :: mode == ModeName(m) ==> r == Some(Brightness(p, m))
    ensures r == None <==> ParseMode(mode) == None
    ensures r.Some? ==> 0.0 <= r.value <= 255.0
  {
    if mode == "average" then Some(Brightness(p, Average))
    else if mode == "lightness" then Some(Brightness(p, Lightness))
    else if mode == "luminosity" then Some(Brightness(p, Luminosity))
    else None
  }

  /** The luminosity weights form a convex combination. */
  lemma LuminosityWeightsSumToOne()
    ensures RedWeight + GreenWeight + BlueWeight == 1.0
    ensures RedWeight >= 0.0 && GreenWeight >= 0.0 && BlueWeight >= 0.0
  {
  }

  /** Sample values: lightness of (10,200,10), average of black and white, luminosity of pure red. */
  lemma BrightnessSamples()
    ensures Brightness(Pixel(10, 200, 10), Lightness) == 105.0
    ensures Brightness(Pixel(0, 0, 0), Average) == 0.0
    ensures Brightness(Pixel(255, 255, 255), Average) == 255.0
    ensures Brightness(Pixel(255, 0, 0), Luminosity) == 53.55
  {
  }
}
