/** 24-bit colours (`RGB`) and the two conversions the renderer applies to
    them: scaling by a brightness factor, and quantising to an index of the
    256-colour terminal palette (the 6x6x6 colour cube at 16..231 and the
    grey ramp at 232..255). */
module ColorConverter {

  /** An unsigned 8-bit channel (`uint8_t`). */
  newtype Byte = x: int | 0 <= x < 256

  datatype RGB = RGB(r: Byte, g: Byte, b: Byte)

  function Min(a: real, b: real): real {
    if a < b then a else b
  }

  function Max(a: real, b: real): real {
    if a < b then b else a
  }

  /** The brightness factor clamped to [0.1, 1.5]. */
  function ClampFactor(brightness: real): (f: real)
    ensures 0.1 <= f <= 1.5
    ensures 0.1 <= brightness <= 1.5 ==> f == brightness
    ensures brightness < 0.1 ==> f == 0.1
    ensures brightness > 1.5 ==> f == 1.5
  {
    Max(0.1, Min(1.5, brightness))
  }

  /** `r` is the largest integer not above `c * f`, capped at 255. */
  predicate ScaledBy(c: Byte, f: real, r: Byte) {
    (r as real) <= c as real * f && (r == 255 || c as real * f < r as real + 1.0)
  }

  /** One channel scaled by a factor in [0.1, 1.5]: `min(255, c * f)`
      converted to `uint8_t`, which truncates; the value is non-negative, so
      truncation is the floor. */
  function ScaleChannel(c: Byte, f: real): (r: Byte)
    requires 0.1 <= f <= 1.5
    ensures ScaledBy(c, f, r)
  {
    ProductNonNegative(c as real, f);
    (Min(255.0, c as real * f)).Floor as Byte
  }

  lemma ProductNonNegative(a: real, b: real)
    requires a >= 0.0 && b >= 0.0
    ensures a * b >= 0.0
  {
  }

  /** `RGB::applyBrightness`: every channel scaled by the clamped factor. */
  function ApplyBrightness(color: RGB, brightness: real): (r: RGB)
    ensures var f := ClampFactor(brightness);
            ScaledBy(color.r, f, r.r) && ScaledBy(color.g, f, r.g) && ScaledBy(color.b, f, r.b)
  {
    var f := ClampFactor(brightness);
    RGB(ScaleChannel(color.r, f), ScaleChannel(color.g, f), ScaleChannel(color.b, f))
  }

  /** A factor of 1 leaves every colour unchanged. */
  lemma ApplyBrightnessOne(color: RGB)
    ensures ApplyBrightness(color, 1.0) == color
  {
    ScaleChannelOne(color.r);
    ScaleChannelOne(color.g);
    ScaleChannelOne(color.b);
  }

  lemma ScaleChannelOne(c: Byte)
    ensures ScaleChannel(c, 1.0) == c
  {
    assert c as real * 1.0 == c as real;
  }

  lemma MultiplyMonotone(c: real, f1: real, f2: real)
    requires c >= 0.0 && f1 <= f2
    ensures c * f1 <= c * f2
  {
    assert c * f2 - c * f1 == c * (f2 - f1);
    ProductNonNegative(c, f2 - f1);
  }

  lemma ScaleChannelMonotone(c: Byte, f1: real, f2: real)
    requires 0.1 <= f1 <= f2 <= 1.5
    ensures ScaleChannel(c, f1) <= ScaleChannel(c, f2)
  {
    MultiplyMonotone(c as real, f1, f2);
    var x1, x2 := Min(255.0, c as real * f1), Min(255.0, c as real * f2);
    assert x1 <= x2;
    FloorMonotone(x1, x2);
  }

  lemma FloorMonotone(a: real, b: real)
    requires a <= b
    ensures a.Floor <= b.Floor
  {
  }

  /** Each channel is non-decreasing in the brightness factor. */
  lemma ApplyBrightnessMonotone(color: RGB, b1: real, b2: real)
    requires b1 <= b2
    ensures ApplyBrightness(color, b1).r <= ApplyBrightness(color, b2).r
    ensures ApplyBrightness(color, b1).g <= ApplyBrightness(color, b2).g
    ensures ApplyBrightness(color, b1).b <= ApplyBrightness(color, b2).b
  {
    var f1, f2 := ClampFactor(b1), ClampFactor(b2);
    ScaleChannelMonotone(color.r, f1, f2);
    ScaleChannelMonotone(color.g, f1, f2);
    ScaleChannelMonotone(color.b, f1, f2);
  }

  /** Factors outside [0.1, 1.5] act as the nearest bound. */
  lemma ApplyBrightnessClamped(color: RGB, brightness: real)
    ensures brightness > 1.5 ==> ApplyBrightness(color, brightness) == ApplyBrightness(color, 1.5)
    ensures brightness < 0.1 ==> ApplyBrightness(color, brightness) == ApplyBrightness(color, 0.1)
  {
  }

  /** `std::max(0, std::min(255, v))` on an integer. */
  function ClampChannel(v: int): (r: int)
    ensures 0 <= r <= 255
    ensures 0 <= v <= 255 ==> r == v
  {
    if v < 0 then 0 else if v > 255 then 255 else v
  }

  /** The clamps applied before quantising change no 8-bit channel. */
  lemma ClampChannelNoOp(c: Byte)
    ensures ClampChannel(c as int) == c as int
  {
  }

  predicate IsGrey(color: RGB) {
    color.r == color.g && color.g == color.b
  }

  /** The grey-ramp index of a grey level: 232 below 8, 255 above 247, and
      otherwise 232 plus `floor((v - 8) / 247 * 23)`. */
  function GreyIndex(v: Byte): (r: int)
    ensures 232 <= r <= 255
    ensures v < 8 ==> r == 232
    ensures v > 247 ==> r == 255
    ensures 8 <= v <= 247 ==> (r - 232) * 247 <= (v as int - 8) * 23 < (r - 232 + 1) * 247
  {
    if v < 8 then 232
    else if v > 247 then 255
    else 232 + ((v as int - 8) * 23) / 247
  }

  /** A colour-cube coordinate: `floor(v / 255 * 5)`, which is `floor(v / 51)`. */
  function CubeLevel(v: Byte): (r: int)
    ensures 0 <= r <= 5
    ensures r * 51 <= v as int < (r + 1) * 51
  {
    v as int / 51
  }

  /** `RGB::to256Color`. */
  function To256Color(color: RGB): (r: int)
    ensures 16 <= r <= 255
    ensures IsGrey(color) ==> r == GreyIndex(color.r)
    ensures !IsGrey(color) ==> r == 16 + 36 * CubeLevel(color.r) + 6 * CubeLevel(color.g) + CubeLevel(color.b)
  {
    var rv, gv, bv := ClampChannel(color.r as int) as Byte, ClampChannel(color.g as int) as Byte, ClampChannel(color.b as int) as Byte;
    if rv == gv && gv == bv then GreyIndex(rv)
    else 16 + 36 * CubeLevel(rv) + 6 * CubeLevel(gv) + CubeLevel(bv)
  }

  /** Greys land on the grey ramp 232..255. */
  lemma GreyOnRamp(color: RGB)
    requires IsGrey(color)
    ensures 232 <= To256Color(color) <= 255
  {
  }

  /** Other colours land in the colour cube 16..231, and the cube
      coordinates can be read back from the index. */
  lemma ColourInCube(color: RGB)
    requires !IsGrey(color)
    ensures 16 <= To256Color(color) <= 231
    ensures var i := To256Color(color) - 16;
            i / 36 == CubeLevel(color.r) && (i / 6) % 6 == CubeLevel(color.g) && i % 6 == CubeLevel(color.b)
  {
    var lr, lg, lb := CubeLevel(color.r), CubeLevel(color.g), CubeLevel(color.b);
    CubeDigits(lr, lg, lb);
  }

  /** Base-6 digits of a colour-cube index. */
  lemma CubeDigits(a: int, b: int, c: int)
    requires 0 <= a <= 5 && 0 <= b <= 5 && 0 <= c <= 5
    ensures 0 <= 36 * a + 6 * b + c <= 215
    ensures (36 * a + 6 * b + c) / 36 == a
    ensures ((36 * a + 6 * b + c) / 6) % 6 == b
    ensures (36 * a + 6 * b + c) % 6 == c
  {
    var i := 36 * a + 6 * b + c;
    assert i == 6 * (6 * a + b) + c;
    assert i / 6 == 6 * a + b;
    assert i == 36 * a + (6 * b + c);
  }

  /** A grey and a non-grey colour never share a palette index. */
  lemma GreyAndColourDisjoint(grey: RGB, other: RGB)
    requires IsGrey(grey) && !IsGrey(other)
    ensures To256Color(grey) != To256Color(other)
  {
    ColourInCube(other);
  }
}
