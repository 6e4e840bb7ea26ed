/** `getScoreColorRGB`: the fill colour of a node, interpolated linearly from
    white at score 0 to a palette colour at the maximum score, written as
    `#rrggbb`. */
module ScoreColor {
  import opened Wrappers

  datatype Rgb = Rgb(red: int, green: int, blue: int)

  predicate IsByte(n: int) {
    0 <= n <= 255
  }

  predicate IsByteRgb(c: Rgb) {
    IsByte(c.red) && IsByte(c.green) && IsByte(c.blue)
  }

  const White := Rgb(255, 255, 255)

  /** The seven gradient targets; any other colour name has none. */
  function PaletteTarget(color: string): (t: Option<Rgb>)
    ensures t.Some? ==> IsByteRgb(t.value)
  {
    if color == "red" then Some(Rgb(255, 0, 0))
    else if color == "green" then Some(Rgb(0, 255, 0))
    else if color == "blue" then Some(Rgb(0, 0, 255))
    else if color == "orange" then Some(Rgb(255, 165, 0))
    else if color == "yellow" then Some(Rgb(255, 255, 0))
    else if color == "pink" then Some(Rgb(255, 192, 203))
    else if color == "grey" then Some(Rgb(128, 128, 128))
    else None
  }

  /** Python's `int()` on a number: truncation toward zero. */
  function Truncate(x: real): (n: int)
    ensures 0.0 <= x ==> n as real <= x < n as real + 1.0
    ensures x <= 0.0 ==> n as real - 1.0 < x <= n as real
  {
    if x >= 0.0 then x.Floor else -((-x).Floor)
  }

  /** `max(1, scoreMaxValue)`: the divisor is never below 1. */
  function EffectiveMax(maxScore: real): (m: real)
    ensures m >= 1.0 && m >= maxScore
    ensures m == maxScore || m == 1.0
  {
    if maxScore > 1.0 then maxScore else 1.0
  }

  /** One channel, `int(255 - fraction * (255 - target))`. */
  function Channel(fraction: real, target: int): int {
    Truncate(255.0 - fraction * (255 - target) as real)
  }

  /** The interpolated colour before formatting. */
  function ScoreRgb(score: real, maxScore: real, target: Rgb): Rgb {
    var fraction := score / EffectiveMax(maxScore);
    Rgb(Channel(fraction, target.red), Channel(fraction, target.green), Channel(fraction, target.blue))
  }

  const HexDigitChars: string := "0123456789abcdef"

  predicate IsLowerHex(c: char) {
    c in HexDigitChars
  }

  /** Lowercase hexadecimal digits of a natural number, without padding. */
  function HexDigits(n: nat): (s: string)
    ensures |s| >= 1
    ensures forall i :: 0 <= i < |s| ==> IsLowerHex(s[i])
    ensures n < 16 ==> |s| == 1
    ensures 16 <= n < 256 ==> |s| == 2
  {
    if n < 16 then [HexDigitChars[n]] else HexDigits(n / 16) + [HexDigitChars[n % 16]]
  }

  /** Python's `"{:02x}"`: at least two characters, zero-padded, with a
      minus sign in front of negative numbers. */
  function Hex02(n: int): string {
    if n < 0 then "-" + HexDigits(-n)
    else if n < 16 then "0" + HexDigits(n)
    else HexDigits(n)
  }

  function FormatRgb(c: Rgb): string {
    "#" + Hex02(c.red) + Hex02(c.green) + Hex02(c.blue)
  }

  /** `getScoreColorRGB(scoreValue, scoreMaxValue, color)`. */
  function ScoreColorRgb(score: real, maxScore: real, color: string): (hex: string)
    ensures PaletteTarget(color).None? ==> hex == "#ffffff"
  {
    match PaletteTarget(color)
    case None => "#ffffff"
    case Some(target) => FormatRgb(ScoreRgb(score, maxScore, target))
  }

  // ---------------------------------------------------------------------
  // Reading a colour back: the inverse of the formatting.

  function HexValue(c: char): int {
    if '0' <= c <= '9' then c as int - '0' as int
    else if 'a' <= c <= 'f' then c as int - 'a' as int + 10
    else -1
  }

  function ParseHex(s: string): int {
    if s == [] then 0 else ParseHex(s[..|s| - 1]) * 16 + HexValue(s[|s| - 1])
  }

  /** Reads `#rrggbb` with lowercase digits; anything else is rejected. */
  function ParseColor(hex: string): Option<Rgb> {
    if |hex| == 7 && hex[0] == '#' && forall i :: 1 <= i < 7 ==> IsLowerHex(hex[i]) then
      Some(Rgb(ParseHex(hex[1..3]), ParseHex(hex[3..5]), ParseHex(hex[5..7])))
    else None
  }

  lemma HexValueOfDigit(d: nat)
    requires d < 16
    ensures HexValue(HexDigitChars[d]) == d
  {
  }

  lemma {:induction false} ParseHexDigits(n: nat)
    ensures ParseHex(HexDigits(n)) == n
  {
    if n < 16 {
      HexValueOfDigit(n);
      assert ParseHex([HexDigitChars[n]]) == ParseHex([]) * 16 + HexValue(HexDigitChars[n]);
    } else {
      var s := HexDigits(n);
      ParseHexDigits(n / 16);
      HexValueOfDigit(n % 16);
      assert s[..|s| - 1] == HexDigits(n / 16);
    }
  }

  lemma Hex02Byte(n: int)
    requires IsByte(n)
    ensures |Hex02(n)| == 2
    ensures forall i :: 0 <= i < 2 ==> IsLowerHex(Hex02(n)[i])
    ensures ParseHex(Hex02(n)) == n
  {
    ParseHexDigits(n);
    if n < 16 {
      var s := Hex02(n);
      assert s[..1] == "0";
      assert ParseHex("0") == 0;
      assert s[1] == HexDigits(n)[0];
    }
  }

  /** Formatting a colour whose channels are bytes gives `#` and six
      lowercase hex digits, which read back as the same colour. */
  lemma FormatRgbRoundTrip(c: Rgb)
    requires IsByteRgb(c)
    ensures |FormatRgb(c)| == 7 && FormatRgb(c)[0] == '#'
    ensures forall i :: 1 <= i < 7 ==> IsLowerHex(FormatRgb(c)[i])
    ensures ParseColor(FormatRgb(c)) == Some(c)
  {
    Hex02Byte(c.red);
    Hex02Byte(c.green);
    Hex02Byte(c.blue);
    var s := FormatRgb(c);
    assert s[1..3] == Hex02(c.red);
    assert s[3..5] == Hex02(c.green);
    assert s[5..7] == Hex02(c.blue);
  }

  // ---------------------------------------------------------------------
  // Endpoints and bounds of the gradient.

  lemma Hex02Of255()
    ensures Hex02(255) == "ff"
  {
    assert HexDigits(255) == HexDigits(15) + [HexDigitChars[15]];
  }

  lemma Hex02Of0()
    ensures Hex02(0) == "00"
  {
  }

  lemma Hex02OfPaletteChannels()
    ensures Hex02(165) == "a5" && Hex02(192) == "c0" && Hex02(203) == "cb" && Hex02(128) == "80"
  {
    assert HexDigits(165) == HexDigits(10) + [HexDigitChars[5]];
    assert HexDigits(192) == HexDigits(12) + [HexDigitChars[0]];
    assert HexDigits(203) == HexDigits(12) + [HexDigitChars[11]];
    assert HexDigits(128) == HexDigits(8) + [HexDigitChars[0]];
  }

  /** A zero score is white, whatever the maximum and the colour name. */
  lemma ZeroScoreIsWhite(maxScore: real, color: string)
    ensures ScoreColorRgb(0.0, maxScore, color) == "#ffffff"
  {
    Hex02Of255();
    match PaletteTarget(color)
    case None =>
    case Some(t) =>
      assert ScoreRgb(0.0, maxScore, t) == White;
  }

  /** At the maximum score (itself at least 1) the colour is exactly the
      palette target. */
  lemma ScoreAtMaxIsTarget(maxScore: real, color: string)
    requires maxScore >= 1.0 && PaletteTarget(color).Some?
    ensures ScoreRgb(maxScore, maxScore, PaletteTarget(color).value) == PaletteTarget(color).value
    ensures ScoreColorRgb(maxScore, maxScore, color) == FormatRgb(PaletteTarget(color).value)
  {
    assert maxScore / EffectiveMax(maxScore) == 1.0;
  }

  lemma FormatBytes(c: Rgb, r: string, g: string, b: string)
    requires Hex02(c.red) == r && Hex02(c.green) == g && Hex02(c.blue) == b
    ensures FormatRgb(c) == "#" + r + g + b
  {
  }

  /** The primary palette colours in `#rrggbb` form. */
  lemma PrimaryHexCodes()
    ensures FormatRgb(PaletteTarget("red").value) == "#ff0000"
    ensures FormatRgb(PaletteTarget("green").value) == "#00ff00"
    ensures FormatRgb(PaletteTarget("blue").value) == "#0000ff"
    ensures FormatRgb(PaletteTarget("yellow").value) == "#ffff00"
  {
    Hex02Of255();
    Hex02Of0();
    assert PaletteTarget("red") == Some(Rgb(255, 0, 0));
    assert PaletteTarget("green") == Some(Rgb(0, 255, 0));
    assert PaletteTarget("blue") == Some(Rgb(0, 0, 255));
    assert PaletteTarget("yellow") == Some(Rgb(255, 255, 0));
    FormatBytes(Rgb(255, 0, 0), "ff", "00", "00");
    FormatBytes(Rgb(0, 255, 0), "00", "ff", "00");
    FormatBytes(Rgb(0, 0, 255), "00", "00", "ff");
    FormatBytes(Rgb(255, 255, 0), "ff", "ff", "00");
    assert "#" + "ff" + "00" + "00" == "#ff0000";
    assert "#" + "00" + "ff" + "00" == "#00ff00";
    assert "#" + "00" + "00" + "ff" == "#0000ff";
    assert "#" + "ff" + "ff" + "00" == "#ffff00";
  }

  /** The blended palette colours in `#rrggbb` form, one at a time. */
  lemma OrangeHexCode()
    ensures FormatRgb(PaletteTarget("orange").value) == "#ffa500"
  {
    Hex02Of255();
    Hex02Of0();
    Hex02OfPaletteChannels();
    assert PaletteTarget("orange") == Some(Rgb(255, 165, 0));
    FormatBytes(Rgb(255, 165, 0), "ff", "a5", "00");
    assert "#" + "ff" + "a5" + "00" == "#ffa500";
  }

  lemma PinkHexCode()
    ensures FormatRgb(PaletteTarget("pink").value) == "#ffc0cb"
  {
    Hex02Of255();
    Hex02OfPaletteChannels();
    assert PaletteTarget("pink") == Some(Rgb(255, 192, 203));
    FormatBytes(Rgb(255, 192, 203), "ff", "c0", "cb");
    assert "#" + "ff" + "c0" + "cb" == "#ffc0cb";
  }

  lemma GreyHexCode()
    ensures FormatRgb(PaletteTarget("grey").value) == "#808080"
  {
    Hex02OfPaletteChannels();
    assert PaletteTarget("grey") == Some(Rgb(128, 128, 128));
    FormatBytes(Rgb(128, 128, 128), "80", "80", "80");
    assert "#" + "80" + "80" + "80" == "#808080";
  }

  /** With the score between 0 and the effective maximum the fraction lies
      in [0, 1]. */
  lemma FractionInUnitInterval(score: real, maxScore: real)
    requires 0.0 <= score <= EffectiveMax(maxScore)
    ensures 0.0 <= score / EffectiveMax(maxScore) <= 1.0
  {
  }

  lemma NonNegativeProduct(a: real, b: real)
    requires 0.0 <= a && 0.0 <= b
    ensures 0.0 <= a * b
  {
  }

  lemma ChannelBetween(fraction: real, target: int)
    requires 0.0 <= fraction <= 1.0 && IsByte(target)
    ensures target <= Channel(fraction, target) <= 255
  {
    var k := (255 - target) as real;
    assert 0.0 <= fraction * k <= k;
    assert k == 255.0 - target as real;
    var fk := fraction * k;
    NonNegativeProduct(1.0 - fraction, k);
    assert k - fk == (1.0 - fraction) * k;
    assert 0.0 <= fk <= k;
    var x := 255.0 - fk;
    assert target as real <= x;
    assert x <= 255.0;
    assert Channel(fraction, target) == Truncate(x);
  }

  lemma ChannelAntitone(f1: real, f2: real, target: int)
    requires 0.0 <= f1 <= f2 && IsByte(target)
    ensures Channel(f2, target) <= Channel(f1, target)
  {
    var k := (255 - target) as real;
    assert 0.0 <= f1 * k <= f2 * k;
    var x1, x2 := 255.0 - f1 * k, 255.0 - f2 * k;
    assert x2 <= x1;
    if 0.0 <= x2 {
      assert Channel(f2, target) == x2.Floor && Channel(f1, target) == x1.Floor;
    } else {
      assert Channel(f2, target) <= 0;
    }
  }

  /** For a score between 0 and the effective maximum each channel lies
      between the target's channel and 255. */
  lemma ScoreRgbBounds(score: real, maxScore: real, target: Rgb)
    requires 0.0 <= score <= EffectiveMax(maxScore) && IsByteRgb(target)
    ensures var c := ScoreRgb(score, maxScore, target);
      target.red <= c.red <= 255 && target.green <= c.green <= 255 && target.blue <= c.blue <= 255
  {
    var f := score / EffectiveMax(maxScore);
    FractionInUnitInterval(score, maxScore);
    ChannelBetween(f, target.red);
    ChannelBetween(f, target.green);
    ChannelBetween(f, target.blue);
  }

  /** A higher score never makes any channel lighter. */
  lemma ScoreRgbAntitone(s1: real, s2: real, maxScore: real, target: Rgb)
    requires 0.0 <= s1 <= s2 && IsByteRgb(target)
    ensures var c1, c2 := ScoreRgb(s1, maxScore, target), ScoreRgb(s2, maxScore, target);
      c2.red <= c1.red && c2.green <= c1.green && c2.blue <= c1.blue
  {
    var m := EffectiveMax(maxScore);
    assert s1 / m <= s2 / m;
    ChannelAntitone(s1 / m, s2 / m, target.red);
    ChannelAntitone(s1 / m, s2 / m, target.green);
    ChannelAntitone(s1 / m, s2 / m, target.blue);
  }

  /** For a palette colour and a score in range the result is well formed
      and reads back as the interpolated colour. */
  lemma ScoreColorWellFormed(score: real, maxScore: real, color: string)
    requires PaletteTarget(color).Some? && 0.0 <= score <= EffectiveMax(maxScore)
    ensures var hex := ScoreColorRgb(score, maxScore, color);
      |hex| == 7 && hex[0] == '#' && (forall i :: 1 <= i < 7 ==> IsLowerHex(hex[i])) &&
      ParseColor(hex) == Some(ScoreRgb(score, maxScore, PaletteTarget(color).value))
  {
    var t := PaletteTarget(color).value;
    ScoreRgbBounds(score, maxScore, t);
    FormatRgbRoundTrip(ScoreRgb(score, maxScore, t));
  }
}
