/** The pie chart's series colors: palette colors by index, cycled with darker gradients once the
    palette runs out, and gradients of a single base color when the palette has at most one color.
    Colors are `#rrggbb` strings; channels go through `parseInt(…, 16)`, `Math.round` and
    `toString(16)`. */
module PieColors {
  import opened Base

  /** The color used when the palette has none. */
  const FallbackColor := "#555555"

  /** The hexadecimal digit of a value below 16, in lower case as `toString(16)` writes it. */
  function HexChar(d: nat): (c: char)
    requires d < 16
  {
    if d < 10 then ('0' as int + d) as char else ('a' as int + d - 10) as char
  }

  /** The value of a hexadecimal digit in either case; none for any other character. */
  function HexValue(c: char): (v: Option<nat>)
    ensures v.Some? ==> v.value < 16
  {
    if '0' <= c <= '9' then Some(c as int - '0' as int)
    else if 'a' <= c <= 'f' then Some(c as int - 'a' as int + 10)
    else if 'A' <= c <= 'F' then Some(c as int - 'A' as int + 10)
    else None
  }

  lemma HexCharValue(d: nat)
    requires d < 16
    ensures HexValue(HexChar(d)) == Some(d)
  {
  }

  predicate IsHexDigit(c: char) {
    HexValue(c).Some?
  }

  /** The value of a string of hexadecimal digits, most significant first. */
  function HexDigitsValue(s: string): nat
    requires forall i :: 0 <= i < |s| ==> IsHexDigit(s[i])
  {
    if s == [] then 0
    else
      assert IsHexDigit(s[|s| - 1]);
      HexDigitsValue(s[..|s| - 1]) * 16 + HexValue(s[|s| - 1]).value
  }

  /** `n.toString(16)` for a natural number. */
  function HexString(n: nat): (s: string)
    ensures |s| >= 1 && forall i :: 0 <= i < |s| ==> IsHexDigit(s[i])
  {
    if n < 16 then [HexChar(n)] else HexString(n / 16) + [HexChar(n % 16)]
  }

  /** Reading back the digits `toString(16)` writes gives the number. */
  lemma {:induction false} HexStringValue(n: nat)
    ensures HexDigitsValue(HexString(n)) == n
  {
    var s := HexString(n);
    if n < 16 {
      HexCharValue(n);
      assert s[..0] == [];
    } else {
      HexStringValue(n / 16);
      HexCharValue(n % 16);
      assert s[..|s| - 1] == HexString(n / 16);
    }
  }

  /** `n.toString(16)` for an integer, negative ones with a minus sign; `NaN` for a missing number. */
  function NumberToHex(n: Option<int>): string {
    match n
    case None => "NaN"
    case Some(v) => if v < 0 then "-" + HexString(-v) else HexString(v)
  }

  /** toHex: the hexadecimal digits, padded to two when there is just one. */
  function ToHex(n: Option<int>): (s: string)
    ensures |NumberToHex(n)| == 1 ==> s == "0" + NumberToHex(n)
    ensures |NumberToHex(n)| != 1 ==> s == NumberToHex(n)
  {
    var hex := NumberToHex(n);
    if |hex| == 1 then "0" + hex else hex
  }

  /** Every channel value from 0 to 255 is written as two hexadecimal digits that read back as it. */
  lemma ToHexTwoDigits(n: int)
    requires 0 <= n <= 255
    ensures var s := ToHex(Some(n));
      |s| == 2 && IsHexDigit(s[0]) && IsHexDigit(s[1]) && HexDigitsValue(s) == n
  {
    var s := ToHex(Some(n));
    HexStringValue(n);
    if n < 16 {
      assert s == "0" + HexString(n);
      assert s[..1] == "0";
      assert HexDigitsValue(s[..1]) == 0 by {
        assert s[..1][..0] == [];
      }
    } else {
      assert HexString(n) == [HexChar(n / 16)] + [HexChar(n % 16)];
    }
  }

  /** The position after the hexadecimal digits of `s` that start at `k`. */
  function HexDigitsEnd(s: string, k: nat): (e: nat)
    requires k <= |s|
    ensures k <= e <= |s| && forall i :: k <= i < e ==> IsHexDigit(s[i])
    ensures e < |s| ==> !IsHexDigit(s[e])
    decreases |s| - k
  {
    if k == |s| || !IsHexDigit(s[k]) then k else HexDigitsEnd(s, k + 1)
  }

  /** Where `parseInt(s, 16)` starts reading digits: after leading white space, an optional sign and
      an optional `0x`. */
  function DigitsStart(s: string): (k: nat)
    ensures k <= |s|
  {
    var i := SkipWhitespace(s, 0);
    var j := if i < |s| && (s[i] == '-' || s[i] == '+') then i + 1 else i;
    if j + 1 < |s| && s[j] == '0' && (s[j + 1] == 'x' || s[j + 1] == 'X') then j + 2 else j
  }

  /** `parseInt(s, 16)`: the value of the hexadecimal digits from DigitsStart on, negated after a
      minus sign; `NaN` (`None`) when there are none. */
  function ParseIntHex(s: string): Option<int> {
    var i := SkipWhitespace(s, 0);
    var negative := i < |s| && s[i] == '-';
    var k := DigitsStart(s);
    var e := HexDigitsEnd(s, k);
    if e == k then None
    else
      assert forall i :: 0 <= i < e - k ==> IsHexDigit(s[k..e][i]);
      var v: int := HexDigitsValue(s[k..e]);
      Some(if negative then -v else v)
  }

  /** `parseInt` gives `NaN` exactly when no hexadecimal digit follows the white space, the sign
      and the `0x` prefix. */
  lemma ParseIntHexNaN(s: string)
    ensures ParseIntHex(s).None? <==> DigitsStart(s) == |s| || !IsHexDigit(s[DigitsStart(s)])
  {
    var k := DigitsStart(s);
    var e := HexDigitsEnd(s, k);
    assert ParseIntHex(s).None? <==> e == k;
    if e > k {
      assert IsHexDigit(s[k]);
    }
  }

  /** Two hexadecimal digits parse as their value. */
  lemma ParseTwoHexDigits(t: string)
    requires |t| == 2 && IsHexDigit(t[0]) && IsHexDigit(t[1])
    ensures ParseIntHex(t) == Some(HexDigitsValue(t))
  {
    assert !IsWhitespace(t[0]);
    assert SkipWhitespace(t, 0) == 0;
    assert HexDigitsEnd(t, 0) == 2;
    assert t[0..2] == t;
  }

  /** `s.substring(a, b)` for `a <= b`: both ends held to the string's length. */
  function Substring(s: string, a: nat, b: nat): (r: string)
    requires a <= b
  {
    var lo := if a <= |s| then a else |s|;
    var hi := if b <= |s| then b else |s|;
    s[lo..hi]
  }

  /** `s.replace('#', '')`: the first `#` removed. */
  function RemoveFirstHash(s: string): (r: string)
    ensures |s| > 0 && s[0] == '#' ==> r == s[1..]
    ensures (forall i :: 0 <= i < |s| ==> s[i] != '#') ==> r == s
  {
    if s == [] then s
    else if s[0] == '#' then s[1..]
    else [s[0]] + RemoveFirstHash(s[1..])
  }

  /** hexToRgb: the three channels parsed from two characters each, `#` removed. */
  function HexToRgb(hex: string): (Option<int>, Option<int>, Option<int>) {
    var cleanHex := RemoveFirstHash(hex);
    (ParseIntHex(Substring(cleanHex, 0, 2)), ParseIntHex(Substring(cleanHex, 2, 4)), ParseIntHex(Substring(cleanHex, 4, 6)))
  }

  /** A channel scaled by a factor and rounded; `NaN` stays `NaN`. */
  function Scale(c: Option<int>, factor: real): Option<int> {
    if c.Some? then Some(ScaleChannel(c.value, factor)) else None
  }

  /** `Math.round(c * factor)`. */
  function ScaleChannel(c: int, factor: real): int {
    Round(c as real * factor)
  }

  /** `prefix` followed by the channels from `channel` on, each parsed from its two characters as
      hexToRgb does, scaled, and written as toHex writes it. */
  function AppendScaledHex(prefix: string, cleanHex: string, channel: nat, factor: real): string
    requires channel <= 3
    decreases 3 - channel
  {
    if channel == 3 then prefix
    else
      var hex := ToHex(Scale(ParseIntHex(Substring(cleanHex, 2 * channel, 2 * channel + 2)), factor));
      AppendScaledHex(prefix + hex, cleanHex, channel + 1, factor)
  }

  /** generateGradientColor: the base color with each channel scaled by the factor. */
  function GradientColor(baseColor: string, factor: real): string {
    AppendScaledHex("#", RemoveFirstHash(baseColor), 0, factor)
  }

  /** The gradient is hexToRgb's three channels, scaled and written one after the other. */
  lemma GradientColorChannelwise(baseColor: string, factor: real)
    ensures var (r, g, b) := HexToRgb(baseColor);
      GradientColor(baseColor, factor) == "#" + ToHex(Scale(r, factor)) + ToHex(Scale(g, factor)) + ToHex(Scale(b, factor))
  {
    var clean := RemoveFirstHash(baseColor);
    var (r, g, b) := HexToRgb(baseColor);
    var hr, hg, hb := ToHex(Scale(r, factor)), ToHex(Scale(g, factor)), ToHex(Scale(b, factor));
    assert AppendScaledHex("#" + hr + hg, clean, 2, factor) == "#" + hr + hg + hb;
    assert AppendScaledHex("#" + hr, clean, 1, factor) == "#" + hr + hg + hb;
  }

  /** A `#rrggbb` color. */
  predicate WellFormedColor(s: string) {
    |s| == 7 && s[0] == '#' && forall i :: 1 <= i < 7 ==> IsHexDigit(s[i])
  }

  /** The channels of a well-formed color. */
  function Channels(s: string): (int, int, int)
    requires WellFormedColor(s)
  {
    (HexDigitsValue(s[1..3]), HexDigitsValue(s[3..5]), HexDigitsValue(s[5..7]))
  }

  lemma ChannelBounds(t: string)
    requires |t| == 2 && IsHexDigit(t[0]) && IsHexDigit(t[1])
    ensures 0 <= HexDigitsValue(t) <= 255
  {
    assert t[..1][..0] == [];
    assert HexDigitsValue(t[..1]) == HexValue(t[0]).value;
  }

  /** hexToRgb reads the channels of a well-formed color. */
  lemma HexToRgbChannels(s: string)
    requires WellFormedColor(s)
    ensures var (r, g, b) := Channels(s); HexToRgb(s) == (Some(r), Some(g), Some(b))
    ensures var (r, g, b) := Channels(s); 0 <= r <= 255 && 0 <= g <= 255 && 0 <= b <= 255
  {
    var clean := RemoveFirstHash(s);
    assert clean == s[1..];
    assert Substring(clean, 0, 2) == s[1..3];
    assert Substring(clean, 2, 4) == s[3..5];
    assert Substring(clean, 4, 6) == s[5..7];
    ParseTwoHexDigits(s[1..3]);
    ParseTwoHexDigits(s[3..5]);
    ParseTwoHexDigits(s[5..7]);
    ChannelBounds(s[1..3]);
    ChannelBounds(s[3..5]);
    ChannelBounds(s[5..7]);
  }

  /** A channel scaled by a factor within [0, 1] stays within [0, 255]. */
  lemma ScaleBounds(c: int, factor: real)
    requires 0 <= c <= 255 && 0.0 <= factor <= 1.0
    ensures 0 <= ScaleChannel(c, factor) <= 255
  {
    assert 0.0 <= c as real * factor <= c as real;
  }

  /** Three pairs of hexadecimal digits after a `#` make a well-formed color with those channels. */
  lemma ComposeColor(a: string, b: string, c: string)
    requires |a| == 2 && IsHexDigit(a[0]) && IsHexDigit(a[1])
    requires |b| == 2 && IsHexDigit(b[0]) && IsHexDigit(b[1])
    requires |c| == 2 && IsHexDigit(c[0]) && IsHexDigit(c[1])
    ensures WellFormedColor("#" + a + b + c)
    ensures Channels("#" + a + b + c) == (HexDigitsValue(a), HexDigitsValue(b), HexDigitsValue(c))
  {
    var out := "#" + a + b + c;
    assert out == ['#', a[0], a[1], b[0], b[1], c[0], c[1]];
    assert out[1..3] == a;
    assert out[3..5] == b;
    assert out[5..7] == c;
  }

  /** The gradient of a well-formed color is written from its scaled channels. */
  lemma GradientOfChannels(baseColor: string, factor: real)
    requires WellFormedColor(baseColor)
    ensures GradientColor(baseColor, factor)
      == "#" + ToHex(Scale(Some(Channels(baseColor).0), factor)) + ToHex(Scale(Some(Channels(baseColor).1), factor))
         + ToHex(Scale(Some(Channels(baseColor).2), factor))
  {
    HexToRgbChannels(baseColor);
    GradientColorChannelwise(baseColor, factor);
    var rgb := HexToRgb(baseColor);
    assert rgb == (Some(Channels(baseColor).0), Some(Channels(baseColor).1), Some(Channels(baseColor).2));
  }

  /** Each channel scaled by a factor and rounded. */
  function ScaledChannels(c: (int, int, int), factor: real): (int, int, int) {
    (ScaleChannel(c.0, factor), ScaleChannel(c.1, factor), ScaleChannel(c.2, factor))
  }

  /** With a factor within [0, 1], the gradient of a well-formed color is a well-formed color whose
      channels are the base channels scaled and rounded. */
  lemma GradientRoundTrip(baseColor: string, factor: real)
    requires WellFormedColor(baseColor) && 0.0 <= factor <= 1.0
    ensures WellFormedColor(GradientColor(baseColor, factor))
    ensures Channels(GradientColor(baseColor, factor)) == ScaledChannels(Channels(baseColor), factor)
  {
    var c := Channels(baseColor);
    HexToRgbChannels(baseColor);
    GradientOfChannels(baseColor, factor);
    ScaleBounds(c.0, factor);
    ScaleBounds(c.1, factor);
    ScaleBounds(c.2, factor);
    var rs, gs, bs := ScaleChannel(c.0, factor), ScaleChannel(c.1, factor), ScaleChannel(c.2, factor);
    ToHexTwoDigits(rs);
    ToHexTwoDigits(gs);
    ToHexTwoDigits(bs);
    ComposeColor(ToHex(Some(rs)), ToHex(Some(gs)), ToHex(Some(bs)));
    assert Channels(GradientColor(baseColor, factor)) == (rs, gs, bs);
    assert ScaledChannels(c, factor) == (rs, gs, bs);
  }

  /** The gradient factor of a palette cycle, as written: one less a fifth per cycle, so negative
      from the sixth cycle on. */
  function CycleFactorAsWritten(cycleNumber: nat): (f: real)
    ensures f <= 1.0
    ensures cycleNumber > 5 ==> f < 0.0
  {
    var f := 1.0 - cycleNumber as real * 0.2;
    if f <= 1.0 then f else 1.0
  }

  /** The gradient factor of a palette cycle, held at zero once the cycles have darkened to black. */
  function CycleFactor(cycleNumber: nat): (f: real)
    ensures 0.0 <= f <= 1.0
    ensures cycleNumber <= 5 ==> f == CycleFactorAsWritten(cycleNumber)
  {
    var f := CycleFactorAsWritten(cycleNumber);
    if f >= 0.0 then f else 0.0
  }

  /** The cycle an index is in and its position within the palette: `Math.floor(i / n)` and `i % n`,
      computed by counting off whole palettes. */
  function PaletteCycle(seriesIndex: nat, paletteLength: nat): (r: (nat, nat))
    requires paletteLength > 0
    ensures r.1 < paletteLength
    ensures r.0 == 0 <==> seriesIndex < paletteLength
    ensures r.0 == 0 ==> r.1 == seriesIndex
    decreases seriesIndex
  {
    if seriesIndex < paletteLength then (0, seriesIndex)
    else
      var p := PaletteCycle(seriesIndex - paletteLength, paletteLength);
      (p.0 + 1, p.1)
  }

  /** Counting off whole palettes gives the quotient and the remainder. */
  lemma {:induction false} PaletteCycleIsDivMod(seriesIndex: nat, paletteLength: nat)
    requires paletteLength > 0
    ensures PaletteCycle(seriesIndex, paletteLength) == (seriesIndex / paletteLength, seriesIndex % paletteLength)
    decreases seriesIndex
  {
    if seriesIndex >= paletteLength {
      var rest := seriesIndex - paletteLength;
      PaletteCycleIsDivMod(rest, paletteLength);
      assert rest == (rest / paletteLength) * paletteLength + rest % paletteLength;
      assert seriesIndex == (rest / paletteLength + 1) * paletteLength + rest % paletteLength;
      DivModUnique(seriesIndex, paletteLength, rest / paletteLength + 1, rest % paletteLength);
    }
  }

  lemma DivModUnique(x: nat, n: nat, q: nat, r: nat)
    requires n > 0 && r < n && x == q * n + r
    ensures x / n == q && x % n == r
  {
    var q0, r0 := x / n, x % n;
    assert x == q0 * n + r0;
    if q > q0 {
      MulAtLeast(q - q0, n);
    } else if q < q0 {
      MulAtLeast(q0 - q, n);
    }
  }

  lemma MulAtLeast(d: nat, n: nat)
    requires d >= 1
    ensures d * n >= n
  {
    assert d * n == (d - 1) * n + n;
  }

  /** getColor as written: the palette color by index, then, past the palette, its gradient for the
      cycle the index is in. */
  function GetColorAsWritten(palette: seq<string>, seriesIndex: nat): (c: string)
    ensures |palette| == 0 ==> c == FallbackColor
    ensures seriesIndex < |palette| ==> c == palette[seriesIndex]
  {
    if |palette| == 0 then FallbackColor
    else
      var (cycleNumber, paletteIndex) := PaletteCycle(seriesIndex, |palette|);
      var baseColor := palette[paletteIndex];
      if seriesIndex < |palette| then baseColor
      else GradientColor(baseColor, CycleFactorAsWritten(cycleNumber))
  }

  /** Pure red is a well-formed color with channels 255, 0 and 0. */
  lemma RedChannels()
    ensures WellFormedColor("#ff0000") && Channels("#ff0000") == (255, 0, 0)
  {
    var base := "#ff0000";
    assert base[1..3] == "ff" && base[3..5] == "00" && base[5..7] == "00";
    assert HexDigitsValue("ff") == 255 by {
      assert "ff"[..1] == "f";
      assert "f"[..0] == [];
    }
    assert HexDigitsValue("00") == 0 by {
      assert "00"[..1] == "0";
      assert "0"[..0] == [];
    }
  }

  /** -51 is written `-33`. */
  lemma MinusFiftyOneHex()
    ensures ToHex(Some(-51)) == "-33"
  {
    assert HexString(51) == HexString(3) + [HexChar(3)];
    assert NumberToHex(Some(-51)) == "-33";
  }

  /** A negative number is written with a minus sign first. */
  lemma ToHexNegative(v: int)
    requires v < 0
    ensures |ToHex(Some(v))| >= 2 && ToHex(Some(v))[0] == '-'
  {
  }

  /** A gradient whose red channel is scaled below zero is written with a minus sign after the `#`. */
  lemma GradientNegativeRed(baseColor: string, factor: real)
    requires WellFormedColor(baseColor) && ScaleChannel(Channels(baseColor).0, factor) < 0
    ensures GradientColor(baseColor, factor)[1] == '-'
    ensures !WellFormedColor(GradientColor(baseColor, factor))
  {
    var c := Channels(baseColor);
    GradientOfChannels(baseColor, factor);
    var r, g, b := ToHex(Scale(Some(c.0), factor)), ToHex(Scale(Some(c.1), factor)), ToHex(Scale(Some(c.2), factor));
    ToHexNegative(ScaleChannel(c.0, factor));
    assert GradientColor(baseColor, factor) == "#" + r + g + b;
    assert ("#" + r)[1] == r[0];
    assert ("#" + r + g + b)[1] == ("#" + r)[1];
    assert !IsHexDigit('-');
  }

  /** Past the palette, once the factor as written scales the red channel of the cycled color below
      zero, the gradient is written with a minus sign after the `#` and is not a color. */
  lemma GetColorAsWrittenNegativeChannel(palette: seq<string>, seriesIndex: nat)
    requires AllWellFormed(palette) && |palette| > 0 && seriesIndex >= |palette|
    requires var (cycleNumber, paletteIndex) := PaletteCycle(seriesIndex, |palette|);
      ScaleChannel(Channels(palette[paletteIndex]).0, CycleFactorAsWritten(cycleNumber)) < 0
    ensures GetColorAsWritten(palette, seriesIndex)[1] == '-'
    ensures !WellFormedColor(GetColorAsWritten(palette, seriesIndex))
  {
    var (cycleNumber, paletteIndex) := PaletteCycle(seriesIndex, |palette|);
    GradientNegativeRed(palette[paletteIndex], CycleFactorAsWritten(cycleNumber));
  }

  /** The sixth cycle's factor as written scales a full channel to -51. */
  lemma SixthCycleScale()
    ensures CycleFactorAsWritten(6) == -0.2 && ScaleChannel(255, CycleFactorAsWritten(6)) == -51
  {
  }

  /** With two palette colors, the first with a full red channel (`#ff0000`, `#00ff00` for one, by
      RedChannels and GreenWellFormed), series 12 is in the sixth cycle, where red's 255 is scaled by
      -0.2 to -51 and written `-33`. */
  lemma NegativeChannelExample(palette: seq<string>, seriesIndex: nat)
    requires AllWellFormed(palette) && |palette| == 2 && Channels(palette[0]).0 == 255 && seriesIndex == 12
    ensures GetColorAsWritten(palette, seriesIndex)[1] == '-'
    ensures !WellFormedColor(GetColorAsWritten(palette, seriesIndex))
  {
    SeriesTwelveOfTwo(seriesIndex, |palette|);
    SixthCycleScale();
    GetColorAsWrittenNegativeChannel(palette, seriesIndex);
  }

  /** Series 12 of a two-color palette is in cycle 6, at the first color. */
  lemma SeriesTwelveOfTwo(seriesIndex: nat, paletteLength: nat)
    requires seriesIndex == 12 && paletteLength == 2
    ensures PaletteCycle(seriesIndex, paletteLength) == (6, 0)
  {
    PaletteCycleIsDivMod(seriesIndex, paletteLength);
  }

  /** `#00ff00` is a color, so the example palette is well formed. */
  lemma GreenWellFormed()
    ensures WellFormedColor("#00ff00")
  {
  }

  /** getColor: the fallback color for an empty palette, the palette color while the index is within
      the palette, and past it the gradient of the color at the index modulo the palette's length,
      darker with each cycle down to black. */
  function GetColor(palette: seq<string>, seriesIndex: nat): (c: string)
    ensures |palette| == 0 ==> c == FallbackColor
    ensures seriesIndex < |palette| ==> c == palette[seriesIndex]
  {
    if |palette| == 0 then FallbackColor
    else
      var (cycleNumber, paletteIndex) := PaletteCycle(seriesIndex, |palette|);
      var baseColor := palette[paletteIndex];
      if seriesIndex < |palette| then baseColor
      else GradientColor(baseColor, CycleFactor(cycleNumber))
  }

  /** Through the fifth cycle getColor is the function as written; only the factor's floor at zero
      differs. */
  lemma GetColorAgreesAsWritten(palette: seq<string>, seriesIndex: nat)
    requires |palette| == 0 || PaletteCycle(seriesIndex, |palette|).0 <= 5
    ensures GetColor(palette, seriesIndex) == GetColorAsWritten(palette, seriesIndex)
  {
  }

  predicate AllWellFormed(palette: seq<string>) {
    forall i :: 0 <= i < |palette| ==> WellFormedColor(palette[i])
  }

  /** A palette of well-formed colors gives a well-formed color for every index, whose channels past
      the palette are those of the cycled palette color, scaled down. */
  lemma GetColorWellFormed(palette: seq<string>, seriesIndex: nat)
    requires AllWellFormed(palette)
    ensures WellFormedColor(GetColor(palette, seriesIndex))
    ensures |palette| > 0 && seriesIndex >= |palette| ==>
      var (cycleNumber, paletteIndex) := PaletteCycle(seriesIndex, |palette|);
      Channels(GetColor(palette, seriesIndex)) == ScaledChannels(Channels(palette[paletteIndex]), CycleFactor(cycleNumber))
  {
    if |palette| > 0 && seriesIndex >= |palette| {
      var (cycleNumber, paletteIndex) := PaletteCycle(seriesIndex, |palette|);
      GradientRoundTrip(palette[paletteIndex], CycleFactor(cycleNumber));
    }
  }

  /** The gradient factor of series `i` of `totalSeries` sharing one base color: the share of the
      series from `i` on. */
  function SeriesGradientFactor(totalSeries: nat, i: nat): (f: real)
    requires i < totalSeries
    ensures 0.0 < f <= 1.0
  {
    (totalSeries - i) as real / totalSeries as real
  }

  /** The color of series `i` of `totalSeries`: with at most one palette color, that color (or the
      fallback) first and then ever darker gradients of it; otherwise getColor as written. */
  function SeriesColorAt(totalSeries: nat, colorPalette: seq<string>, i: nat): string
    requires i < totalSeries
  {
    if |colorPalette| <= 1 then
      var baseColor := if |colorPalette| == 1 then colorPalette[0] else FallbackColor;
      if i == 0 then baseColor
      else GradientColor(baseColor, SeriesGradientFactor(totalSeries, i))
    else GetColorAsWritten(colorPalette, i)
  }

  /** The sequence `f(0)`, …, `f(n - 1)`. */
  function Tabulate<T>(f: nat -> T, n: nat): (r: seq<T>)
    ensures |r| == n
  {
    if n == 0 then [] else Tabulate(f, n - 1) + [f(n - 1)]
  }

  lemma {:induction false} TabulateAt<T>(f: nat -> T, n: nat, i: nat)
    requires i < n
    ensures Tabulate(f, n)[i] == f(i)
  {
    if i < n - 1 {
      TabulateAt(f, n - 1, i);
    }
  }

  lemma TabulateSnoc<T>(f: nat -> T, n: nat)
    ensures Tabulate(f, n + 1) == Tabulate(f, n) + [f(n)]
  {
  }

  /** The color of each series index; an index past the last series has none. */
  function SeriesColorOf(totalSeries: nat, colorPalette: seq<string>): nat -> string {
    (i: nat) => if i < totalSeries then SeriesColorAt(totalSeries, colorPalette, i) else ""
  }

  /** The colors of the first `n` of `totalSeries` series. */
  function SeriesColors(totalSeries: nat, colorPalette: seq<string>, n: nat): (r: seq<string>)
    requires n <= totalSeries
    ensures |r| == n
  {
    Tabulate(SeriesColorOf(totalSeries, colorPalette), n)
  }

  /** Series `i` gets the color `SeriesColorAt` gives it. */
  lemma SeriesColorsAt(totalSeries: nat, colorPalette: seq<string>, n: nat, i: nat)
    requires i < n <= totalSeries
    ensures SeriesColors(totalSeries, colorPalette, n)[i] == SeriesColorAt(totalSeries, colorPalette, i)
  {
    TabulateAt(SeriesColorOf(totalSeries, colorPalette), n, i);
  }

  /** The colors of the first `i + 1` series: those of the first `i`, then series `i`'s. */
  lemma SeriesColorsSnoc(totalSeries: nat, colorPalette: seq<string>, i: nat)
    requires i < totalSeries
    ensures SeriesColors(totalSeries, colorPalette, i + 1)
            == SeriesColors(totalSeries, colorPalette, i) + [SeriesColorAt(totalSeries, colorPalette, i)]
  {
    TabulateSnoc(SeriesColorOf(totalSeries, colorPalette), i);
  }

  /** With at most one palette color, series `i` gets the base color first, then its gradients. */
  lemma SingleColorAt(totalSeries: nat, colorPalette: seq<string>, i: nat)
    requires |colorPalette| <= 1 && i < totalSeries
    ensures var baseColor := if |colorPalette| == 1 then colorPalette[0] else FallbackColor;
      SeriesColorOf(totalSeries, colorPalette)(i)
        == if i == 0 then baseColor else GradientColor(baseColor, SeriesGradientFactor(totalSeries, i))
  {
  }

  /** The colors of a palette of at most one color: that color (or the fallback), then its gradients. */
  method SingleColorSeries(totalSeries: nat, colorPalette: seq<string>) returns (colors: seq<string>)
    requires |colorPalette| <= 1
    ensures colors == SeriesColors(totalSeries, colorPalette, totalSeries)
  {
    var baseColor := if |colorPalette| == 1 then colorPalette[0] else FallbackColor;
    colors := [];
    for i := 0 to totalSeries
      invariant colors == SeriesColors(totalSeries, colorPalette, i)
    {
      var color;
      if i == 0 {
        color := baseColor;
      } else {
        var gradientFactor := SeriesGradientFactor(totalSeries, i);
        color := GradientColor(baseColor, gradientFactor);
      }
      SeriesColorsSnoc(totalSeries, colorPalette, i);
      colors := colors + [color];
    }
  }

  /** The colors of a palette of several colors: getColor, as written, for each series index. */
  method PaletteSeries(totalSeries: nat, colorPalette: seq<string>) returns (colors: seq<string>)
    requires |colorPalette| > 1
    ensures colors == SeriesColors(totalSeries, colorPalette, totalSeries)
  {
    colors := [];
    for i := 0 to totalSeries
      invariant colors == SeriesColors(totalSeries, colorPalette, i)
    {
      var color := GetColorAsWritten(colorPalette, i);
      colors := colors + [color];
    }
  }

  /** getSeriesColor, before the final shuffle: no colors for no series, otherwise one color per
      series, series `i` getting `SeriesColorAt`'s color. */
  method GetSeriesColor(totalSeries: int, colorPalette: seq<string>) returns (colors: seq<string>)
    ensures totalSeries <= 0 ==> colors == []
    ensures totalSeries > 0 ==> colors == SeriesColors(totalSeries, colorPalette, totalSeries)
    ensures totalSeries > 0 ==>
      |colors| == totalSeries && forall i :: 0 <= i < totalSeries ==> colors[i] == SeriesColorAt(totalSeries, colorPalette, i)
  {
    if totalSeries <= 0 {
      return [];
    }
    if |colorPalette| == 1 || |colorPalette| == 0 {
      colors := SingleColorSeries(totalSeries, colorPalette);
    } else {
      colors := PaletteSeries(totalSeries, colorPalette);
    }
    forall i | 0 <= i < totalSeries
      ensures colors[i] == SeriesColorAt(totalSeries, colorPalette, i)
    {
      SeriesColorsAt(totalSeries, colorPalette, totalSeries, i);
    }
  }

  /** With a palette of several colors, the first series take the palette's colors in order. */
  lemma SeriesColorsStartWithPalette(totalSeries: nat, colorPalette: seq<string>, i: nat)
    requires |colorPalette| >= 2 && i < totalSeries && i < |colorPalette|
    ensures SeriesColorAt(totalSeries, colorPalette, i) == colorPalette[i]
  {
  }

  /** A palette of well-formed colors gives a well-formed color to every series of a single-color
      palette, and to every series of a larger palette through the fifth cycle; with a single color,
      series `i` has its channels scaled by `(totalSeries - i) / totalSeries`. */
  lemma SeriesColorsWellFormed(totalSeries: nat, colorPalette: seq<string>, i: nat)
    requires AllWellFormed(colorPalette) && i < totalSeries
    ensures |colorPalette| <= 1 || PaletteCycle(i, |colorPalette|).0 <= 5 ==>
      WellFormedColor(SeriesColorAt(totalSeries, colorPalette, i))
    ensures |colorPalette| == 1 && i > 0 ==>
      Channels(SeriesColorAt(totalSeries, colorPalette, i))
        == ScaledChannels(Channels(colorPalette[0]), SeriesGradientFactor(totalSeries, i))
  {
    if |colorPalette| <= 1 {
      var baseColor := if |colorPalette| == 1 then colorPalette[0] else FallbackColor;
      assert WellFormedColor(FallbackColor);
      if i > 0 {
        var f := SeriesGradientFactor(totalSeries, i);
        GradientRoundTrip(baseColor, f);
      }
    } else if PaletteCycle(i, |colorPalette|).0 <= 5 {
      GetColorAgreesAsWritten(colorPalette, i);
      GetColorWellFormed(colorPalette, i);
    }
  }

  /** getSeriesColor as written gives no color to series 12 of a two-color palette whose first color
      has a full red channel, such as `#ff0000, #00ff00`: the string starts `#-`. */
  lemma SeriesTwelveNotAColor(totalSeries: nat, colorPalette: seq<string>, i: nat)
    requires AllWellFormed(colorPalette) && |colorPalette| == 2 && Channels(colorPalette[0]).0 == 255
    requires i == 12 && i < totalSeries
    ensures SeriesColorAt(totalSeries, colorPalette, i)[1] == '-'
    ensures !WellFormedColor(SeriesColorAt(totalSeries, colorPalette, i))
  {
    NegativeChannelExample(colorPalette, i);
  }
}
