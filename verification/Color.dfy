/** The RGB and HSL conversions of the palette generators, over the reals. */
module Color {
  import opened Reals

  function Max(a: real, b: real): real { if a >= b then a else b }
  function Abs(x: real): real { if x >= 0.0 then x else -x }

  /** Math.round */
  function Round(x: real): int { (x + 0.5).Floor }

  /** JavaScript's `x % 12`: the result has the sign of x. */
  function Mod12(x: real): real {
    if x >= 0.0 then x - 12.0 * (x / 12.0).Floor as real
    else x + 12.0 * ((-x) / 12.0).Floor as real
  }

  /** max(min(k - 3, 9 - k, 1), -1) */
  function Wave(k: real): real {
    Max(Min(Min(k - 3.0, 9.0 - k), 1.0), -1.0)
  }

  /** The channel at wave position x, for lightness l and half chroma c. */
  function Level(l: real, c: real, x: real): real {
    l - c * Wave(Mod12(x))
  }

  function Mix(s: real, l: real, w: real): real {
    l - s * Min(l, 1.0 - l) * w
  }

  /** The same for a saturation instead of the half chroma. */
  function Tint(s: real, l: real, x: real): real {
    Mix(s, l, Wave(Mod12(x)))
  }

  /** One channel of `hslToHex` before rounding, for a hue in degrees and s, l in [0, 1]. */
  function Shade(n: int, h: real, s: real, l: real): real {
    Tint(s, l, n as real + h / 30.0)
  }

  /** The remainder keeps the sign of x and differs from it by whole turns. */
  lemma Mod12Exactly(x: real) returns (turns: int)
    ensures x >= 0.0 ==> 0.0 <= Mod12(x) < 12.0
    ensures x <= 0.0 ==> -12.0 < Mod12(x) <= 0.0
    ensures x == Mod12(x) + 12.0 * turns as real
  {
    turns := if x >= 0.0 then (x / 12.0).Floor else -((-x) / 12.0).Floor;
  }

  lemma Mod12Once(x: real)
    requires 0.0 <= x < 24.0
    ensures Mod12(x) == if x < 12.0 then x else x - 12.0
  {
    if x < 12.0 {
      assert (x / 12.0).Floor == 0;
    } else {
      assert (x / 12.0).Floor == 1;
    }
  }

  lemma WaveRange(k: real)
    ensures -1.0 <= Wave(k) <= 1.0
  {
  }

  /** The wave does not jump where the hue circle closes, and moves no faster than the hue. */
  lemma WaveIsLipschitz(x: real, y: real)
    requires 0.0 <= x < 24.0 && 0.0 <= y < 24.0
    ensures Abs(Wave(Mod12(x)) - Wave(Mod12(y))) <= Abs(x - y)
  {
    Mod12Once(x);
    Mod12Once(y);
  }

  // ---- Exact conversion ----

  predicate Unit(x: real) {
    0.0 <= x <= 1.0
  }

  /** The saturation is the one for which s * min(l, 1 - l) is half the chroma. */
  lemma HalfChroma(max: real, min: real, s: real)
    requires 0.0 <= min < max <= 1.0
    requires var l := (max + min) / 2.0;
      s == if l > 0.5 then (max - min) / (2.0 - max - min) else (max - min) / (max + min)
    ensures var l := (max + min) / 2.0;
      Unit(s) && s * Min(l, 1.0 - l) == (max - min) / 2.0
  {
    var l := (max + min) / 2.0;
    var w := if l > 0.5 then 2.0 - max - min else max + min;
    assert w > 0.0 && max - min <= w && Min(l, 1.0 - l) == w / 2.0;
    QuotientInUnit(max - min, w);
  }

  lemma MulGrows(q: real, w: real)
    requires q > 1.0 && w > 0.0
    ensures q * w > w
  {
  }

  lemma QuotientInUnit(x: real, w: real)
    requires 0.0 <= x <= w && w > 0.0
    ensures Unit(x / w) && (x / w) * (w / 2.0) == x / 2.0 && (x / w) * w == x
  {
    var q := x / w;
    assert q * w == x;
    if q > 1.0 {
      MulGrows(q, w);
    }
  }

  /** A signed difference over the chroma. */
  lemma HueOffset(x: real, d: real)
    requires d > 0.0 && -d <= x <= d
    ensures -1.0 <= x / d <= 1.0 && (x / d) * d == x && (x < 0.0 <==> x / d < 0.0)
  {
    if x >= 0.0 {
      QuotientInUnit(x, d);
    } else {
      QuotientInUnit(-x, d);
      assert x / d == -((-x) / d);
      NegativeQuotient(x, d);
    }
  }

  lemma NegativeQuotient(x: real, d: real)
    requires d > 0.0 && x < 0.0
    ensures x / d < 0.0
  {
  }

  /** The rising and falling flanks of the wave, where a channel is between min and max. */
  lemma Flank(l: real, c: real, d: real, t: real, mid: real, w: real)
    requires c == d / 2.0 && t * d == mid
    ensures w == 1.0 - 2.0 * t ==> l - c * w == (l - c) + mid
    ensures w == 1.0 + 2.0 * t ==> l - c * w == (l - c) - mid
  {
    assert c * (2.0 * t) == mid;
  }

  /** All sectors at once: `top` is the largest channel, `next` and `last` follow it on the
      hue circle, and k is the position of `top`. */
  lemma SectorChannels(top: real, next: real, last: real, t: real, d: real, l: real, c: real, x: real)
    requires top >= next && top >= last && d == top - Min(next, last) && d > 0.0
    requires c == d / 2.0 && l == top - c && t * d == next - last
    requires -1.0 <= t <= 1.0 && (t < 0.0 <==> next < last)
    requires x == 2.0 * t || x == 12.0 + 2.0 * t
    requires 0.0 <= x < 12.0
    ensures Level(l, c, x) == top
    ensures Level(l, c, x + 8.0) == next
    ensures Level(l, c, x + 4.0) == last
  {
    Mod12Once(x);
    Mod12Once(x + 8.0);
    Mod12Once(x + 4.0);
    Flank(l, c, d, t, next - last, Wave(Mod12(x + 8.0)));
    Flank(l, c, d, t, next - last, Wave(Mod12(x + 4.0)));
  }

  lemma LevelPeriodic(l: real, c: real, x: real)
    requires 0.0 <= x < 12.0
    ensures Level(l, c, x + 12.0) == Level(l, c, x)
  {
    Mod12Once(x);
    Mod12Once(x + 12.0);
  }

  /** The hue of a sector, in sixths of the circle: `base` is 0, 2 or 4. The three
      channels sit at wave positions 2 * hue, plus 8, 4 and 0 for red, green and blue. */
  lemma SectorAt(top: real, next: real, last: real, base: int, t: real, d: real, l: real, c: real, hue: real)
    requires top >= next && top >= last && d == top - Min(next, last) && d > 0.0
    requires c == d / 2.0 && l == top - c && t == (next - last) / d
    requires base == 0 || base == 2 || base == 4
    requires hue == t + base as real + (if base == 0 && t < 0.0 then 6.0 else 0.0)
    ensures 0.0 <= hue < 6.0
    ensures Level(l, c, 2.0 * hue + (12 - 2 * base) as real) == top
    ensures Level(l, c, 2.0 * hue + (if base == 2 then 4.0 else if base == 4 then 0.0 else 8.0)) == next
    ensures Level(l, c, 2.0 * hue + (if base == 2 then 0.0 else if base == 4 then 8.0 else 4.0)) == last
  {
    HueOffset(next - last, d);
    var x := if t < 0.0 then 12.0 + 2.0 * t else 2.0 * t;
    SectorChannels(top, next, last, t, d, l, c, x);
    hide Level, Min;
    LevelPeriodic(l, c, x);
    if x < 8.0 { LevelPeriodic(l, c, x + 4.0); } else { LevelPeriodic(l, c, x - 8.0); }
    if x < 4.0 { LevelPeriodic(l, c, x + 8.0); } else { LevelPeriodic(l, c, x - 4.0); }
  }

  /** The three channels at a hue in sixths of the circle. */
  ghost predicate Channels(r: real, g: real, b: real, hue: real, l: real, c: real) {
    && 0.0 <= hue < 6.0
    && Level(l, c, 0.0 + 2.0 * hue) == r
    && Level(l, c, 8.0 + 2.0 * hue) == g
    && Level(l, c, 4.0 + 2.0 * hue) == b
  }

  lemma RedLargest(r: real, g: real, b: real, d: real, l: real, c: real)
    requires r >= g && r >= b && d == r - Min(g, b) && d > 0.0 && c == d / 2.0 && l == r - c
    ensures Channels(r, g, b, (g - b) / d + (if g < b then 6.0 else 0.0), l, c)
  {
    HueOffset(g - b, d);
    var hue := (g - b) / d + (if g < b then 6.0 else 0.0);
    SectorAt(r, g, b, 0, (g - b) / d, d, l, c, hue);
    LevelPeriodic(l, c, 2.0 * hue);
  }

  lemma GreenLargest(r: real, g: real, b: real, d: real, l: real, c: real)
    requires g >= r && g >= b && d == g - Min(b, r) && d > 0.0 && c == d / 2.0 && l == g - c
    ensures Channels(r, g, b, (b - r) / d + 2.0, l, c)
  {
    SectorAt(g, b, r, 2, (b - r) / d, d, l, c, (b - r) / d + 2.0);
  }

  lemma BlueLargest(r: real, g: real, b: real, d: real, l: real, c: real)
    requires b >= r && b >= g && d == b - Min(r, g) && d > 0.0 && c == d / 2.0 && l == b - c
    ensures Channels(r, g, b, (r - g) / d + 4.0, l, c)
  {
    SectorAt(b, r, g, 4, (r - g) / d, d, l, c, (r - g) / d + 4.0);
  }

  lemma SixthsToDegrees(hue: real)
    ensures 360.0 * (hue / 6.0) / 30.0 == 2.0 * hue
  {
  }

  lemma TintIsLevel(s: real, l: real, c: real, x: real)
    requires c == s * Min(l, 1.0 - l)
    ensures Tint(s, l, x) == Level(l, c, x)
  {
  }

  /** `hslToHex` at that hue, given in turns. */
  lemma ChannelsAreShades(r: real, g: real, b: real, hue: real, s: real, l: real, c: real)
    requires c == s * Min(l, 1.0 - l) && Channels(r, g, b, hue, l, c)
    ensures Shade(0, 360.0 * (hue / 6.0), s, l) == r
    ensures Shade(8, 360.0 * (hue / 6.0), s, l) == g
    ensures Shade(4, 360.0 * (hue / 6.0), s, l) == b
  {
    hide Tint, Level, Min;
    SixthsToDegrees(hue);
    TintIsLevel(s, l, c, 2.0 * hue);
    TintIsLevel(s, l, c, 8.0 + 2.0 * hue);
    TintIsLevel(s, l, c, 4.0 + 2.0 * hue);
  }

  lemma Grey(v: real, n: int)
    ensures Shade(n, 360.0 * 0.0, 0.0, v) == v
  {
  }

  /** The switch over the largest channel; the hue in sixths of the circle. */
  method HueSixths(r: real, g: real, b: real, max: real, d: real) returns (h: real)
    requires max == Max(Max(r, g), b) && d == max - Min(Min(r, g), b) && d > 0.0
    ensures Channels(r, g, b, h, max - d / 2.0, d / 2.0)
  {
    if max == r {
      RedLargest(r, g, b, d, max - d / 2.0, d / 2.0);
      return (g - b) / d + (if g < b then 6.0 else 0.0);
    }
    if max == g {
      GreenLargest(r, g, b, d, max - d / 2.0, d / 2.0);
      return (b - r) / d + 2.0;
    }
    BlueLargest(r, g, b, d, max - d / 2.0, d / 2.0);
    return (r - g) / d + 4.0;
  }

  ghost predicate Inverts(r: real, g: real, b: real, h: real, s: real, l: real) {
    && 0.0 <= h < 1.0 && Unit(s) && Unit(l)
    && Shade(0, 360.0 * h, s, l) == r
    && Shade(8, 360.0 * h, s, l) == g
    && Shade(4, 360.0 * h, s, l) == b
  }

  lemma ChannelsInvert(r: real, g: real, b: real, hue: real, max: real, min: real, s: real)
    requires 0.0 <= min < max <= 1.0 && Channels(r, g, b, hue, (max + min) / 2.0, (max - min) / 2.0)
    requires var l := (max + min) / 2.0;
      s == if l > 0.5 then (max - min) / (2.0 - max - min) else (max - min) / (max + min)
    ensures Inverts(r, g, b, hue / 6.0, s, (max + min) / 2.0)
  {
    hide Shade, Level;
    HalfChroma(max, min, s);
    ChannelsAreShades(r, g, b, hue, s, (max + min) / 2.0, (max - min) / 2.0);
  }

  /** The branch with some colour in it. */
  method Coloured(r: real, g: real, b: real, max: real, min: real) returns (h: real, s: real, l: real)
    requires max == Max(Max(r, g), b) && min == Min(Min(r, g), b)
    requires 0.0 <= min < max <= 1.0
    ensures Inverts(r, g, b, h, s, l)
  {
    var d := max - min;
    l := (max + min) / 2.0;
    s := if l > 0.5 then d / (2.0 - max - min) else d / (max + min);
    h := HueSixths(r, g, b, max, d);
    assert l == max - d / 2.0;
    ChannelsInvert(r, g, b, h, max, min, s);
    h := h / 6.0;
  }

  /** `hexToHsl` without the final roundings. For every colour, `hslToHex` without its
      rounding gives the three channels back, whichever of them is largest, ties and greys
      included. The hue is in turns. */
  method ToHsl(r: real, g: real, b: real) returns (h: real, s: real, l: real)
    requires Unit(r) && Unit(g) && Unit(b)
    ensures Inverts(r, g, b, h, s, l)
    ensures r == g == b ==> h == 0.0 && s == 0.0
  {
    var max := Max(Max(r, g), b);
    var min := Min(Min(r, g), b);
    if max == min {
      h, s, l := 0.0, 0.0, (max + min) / 2.0;
      Grey(l, 0);
      Grey(l, 8);
      Grey(l, 4);
    } else {
      h, s, l := Coloured(r, g, b, max, min);
    }
  }

  // ---- With the roundings ----

  /** Nearest integer, halves upwards. */
  lemma RoundExactly(x: real, n: int)
    ensures Round(x) == n <==> n as real - 0.5 <= x < n as real + 0.5
  {
  }

  lemma RoundIsClose(x: real)
    ensures -0.5 <= Round(x) as real - x <= 0.5
  {
  }

  lemma RoundInRange(x: real, lo: int, hi: int)
    requires lo as real <= x <= hi as real
    ensures lo <= Round(x) <= hi
  {
  }

  lemma MulLe(a: real, b: real, c: real)
    requires a <= b && c >= 0.0
    ensures a * c <= b * c
  {
    assert (b - a) * c >= 0.0;
  }

  lemma SmallProduct(x: real, y: real, dx: real, dy: real)
    requires -dx <= x <= dx && -dy <= y <= dy
    ensures -(dx * dy) <= x * y <= dx * dy
  {
    var a := if y >= 0.0 then y else -y;
    MulLe(x, dx, a);
    MulLe(-dx, x, a);
    MulLe(a, dy, dx);
  }

  lemma Distribute(a: real, b: real, a': real, b': real)
    ensures a' * b' - a * b == (a' - a) * b' + a * (b' - b)
  {
  }

  /** How far a product moves when its factors move. */
  lemma ProductMoves(a: real, b: real, a': real, b': real, da: real, db: real, size: real)
    requires -da <= a' - a <= da && -db <= b' - b <= db && -1.0 <= b' <= 1.0 && 0.0 <= a <= size
    ensures -(da + size * db) <= a' * b' - a * b <= da + size * db
  {
    Distribute(a, b, a', b');
    SmallProduct(a' - a, b', da, 1.0);
    SmallProduct(a, b' - b, size, db);
  }

  lemma UnitProduct(s: real, m: real)
    requires Unit(s) && 0.0 <= m <= 0.5
    ensures 0.0 <= s * m <= m
  {
    MulLe(s, 1.0, m);
    MulLe(0.0, s, m);
  }

  predicate Near(x: real, y: real, d: real) {
    -d <= x - y <= d
  }

  /** The three movements added up, for waves w and w'. */
  lemma MixMoves(s: real, l: real, w: real, s': real, l': real, w': real)
    requires Unit(s) && Unit(l) && Unit(s') && Unit(l') && -1.0 <= w' <= 1.0
    requires Near(s', s, 0.005) && Near(l', l, 0.005) && Near(w', w, 1.0 / 60.0)
    ensures Near(Mix(s', l', w'), Mix(s, l, w), 0.02084)
  {
    var m, m' := Min(l, 1.0 - l), Min(l', 1.0 - l');
    ProductMoves(m, s, m', s', 0.005, 0.005, 0.5);
    UnitProduct(s, m);
    ChromaMoves(l, s * m, w, l', s' * m', w');
  }

  /** The same for half chromas a and a'. */
  lemma ChromaMoves(l: real, a: real, w: real, l': real, a': real, w': real)
    requires 0.0 <= a <= 0.5 && -1.0 <= w' <= 1.0
    requires Near(a', a, 0.0075) && Near(l', l, 0.005) && Near(w', w, 1.0 / 60.0)
    ensures Near(l' - a' * w', l - a * w, 0.02084)
  {
    ProductMoves(a, w, a', w', 0.0075, 1.0 / 60.0, 0.5);
  }

  lemma WaveMoves(n: int, h: real, h': real)
    requires (n == 0 || n == 4 || n == 8) && 0.0 <= h <= 360.0 && 0.0 <= h' <= 360.0 && Near(h', h, 0.5)
    ensures Near(Wave(Mod12(n as real + h' / 30.0)), Wave(Mod12(n as real + h / 30.0)), 1.0 / 60.0)
    ensures -1.0 <= Wave(Mod12(n as real + h' / 30.0)) <= 1.0
  {
    var x, x' := n as real + h / 30.0, n as real + h' / 30.0;
    WaveIsLipschitz(x', x);
    WaveRange(Mod12(x'));
  }

  lemma TintMoves(s: real, l: real, x: real, s': real, l': real, x': real)
    requires Unit(s) && Unit(l) && Unit(s') && Unit(l') && -1.0 <= Wave(Mod12(x')) <= 1.0
    requires Near(s', s, 0.005) && Near(l', l, 0.005) && Near(Wave(Mod12(x')), Wave(Mod12(x)), 1.0 / 60.0)
    ensures Near(Tint(s', l', x'), Tint(s, l, x), 0.02084)
  {
    hide Wave, Mod12, Mix;
    MixMoves(s, l, Wave(Mod12(x)), s', l', Wave(Mod12(x')));
  }

  /** Half a degree of hue and half a percent of saturation and lightness move a channel by
      less than 5.32 of 255. */
  lemma ShadeMoves(n: int, h: real, s: real, l: real, h': real, s': real, l': real)
    requires (n == 0 || n == 4 || n == 8) && 0.0 <= h <= 360.0 && 0.0 <= h' <= 360.0
    requires Unit(s) && Unit(l) && Unit(s') && Unit(l')
    requires Near(h', h, 0.5) && Near(s', s, 0.005) && Near(l', l, 0.005)
    ensures Near(Shade(n, h', s', l'), Shade(n, h, s, l), 0.02084)
  {
    hide Wave, Mod12, Tint;
    WaveMoves(n, h, h');
    TintMoves(s, l, n as real + h / 30.0, s', l', n as real + h' / 30.0);
  }

  lemma MixInUnit(s: real, l: real, w: real)
    requires Unit(s) && Unit(l) && -1.0 <= w <= 1.0
    ensures Unit(Mix(s, l, w))
  {
    var m := Min(l, 1.0 - l);
    UnitProduct(s, m);
    SmallProduct(s * m, w, m, 1.0);
  }

  /** Every channel of `hslToHex` is a byte. */
  lemma ShadeInUnit(n: int, h: real, s: real, l: real)
    requires Unit(s) && Unit(l)
    ensures Unit(Shade(n, h, s, l))
  {
    WaveRange(Mod12(n as real + h / 30.0));
    MixInUnit(s, l, Wave(Mod12(n as real + h / 30.0)));
  }

  /** One channel of `hslToHex`, for any hue, saturation and lightness. */
  function Byte(n: int, h: int, s: int, l: int): int {
    Round(255.0 * Shade(n, h as real, s as real / 100.0, l as real / 100.0))
  }

  lemma ByteInRange(n: int, h: int, s: int, l: int)
    requires 0 <= s <= 100 && 0 <= l <= 100
    ensures 0 <= Byte(n, h, s, l) <= 255
  {
    ShadeInUnit(n, h as real, s as real / 100.0, l as real / 100.0);
  }

  // ---- Six-digit colours ----

  predicate IsHexDigit(c: char) {
    '0' <= c <= '9' || 'a' <= c <= 'f' || 'A' <= c <= 'F'
  }

  function DigitValue(c: char): (v: int)
    requires IsHexDigit(c)
    ensures 0 <= v < 16
  {
    if '0' <= c <= '9' then c as int - '0' as int
    else if 'a' <= c <= 'f' then c as int - 'a' as int + 10
    else c as int - 'A' as int + 10
  }

  function UpperDigit(v: int): (c: char)
    requires 0 <= v < 16
    ensures IsHexDigit(c) && DigitValue(c) == v
  {
    if v < 10 then ('0' as int + v) as char else ('A' as int + v - 10) as char
  }

  /** `hex.replace(/^#/, '')` */
  function Digits(s: string): string {
    if s != "" && s[0] == '#' then s[1..] else s
  }

  /** RRGGBB in either case, with or without `#`. */
  predicate IsHexColour(s: string) {
    |Digits(s)| == 6 && forall i :: 0 <= i < 6 ==> IsHexDigit(Digits(s)[i])
  }

  /** parseInt of the two digits of channel 0, 1 or 2. */
  function Channel(s: string, i: int): (v: int)
    requires IsHexColour(s) && 0 <= i < 3
    ensures 0 <= v <= 255
  {
    16 * DigitValue(Digits(s)[2 * i]) + DigitValue(Digits(s)[2 * i + 1])
  }

  /** v.toString(16) in capitals, for v at least 0. */
  function HexDigits(v: nat): (s: string)
    ensures s != "" && (|s| == 1 <==> v < 16) && (|s| == 2 <==> 16 <= v < 256)
    ensures forall i :: 0 <= i < |s| ==> IsHexDigit(s[i])
  {
    if v < 16 then [UpperDigit(v)] else HexDigits(v / 16) + [UpperDigit(v % 16)]
  }

  /** v.toString(16).padStart(2, '0') in capitals: two digits for a byte, a sign or more
      digits otherwise. */
  function HexText(v: int): (s: string)
    ensures 0 <= v <= 255 ==>
      |s| == 2 && IsHexDigit(s[0]) && IsHexDigit(s[1]) && 16 * DigitValue(s[0]) + DigitValue(s[1]) == v
    ensures |s| >= 2 && (v < 0 ==> s[0] == '-') && (v > 255 ==> |s| > 2)
  {
    if v < 0 then "-" + HexDigits(-v)
    else if v < 16 then "0" + HexDigits(v)
    else
      assert v < 256 ==> HexDigits(v / 16) == [UpperDigit(v / 16)];
      HexDigits(v)
  }

  /** `hslToHex`. The result is a six-digit colour if and only if the three channels are
      bytes, and then reads back as them. */
  function HslToHex(h: int, s: int, l: int): (hex: string)
    ensures IsHexColour(hex) <==> IsByte(Byte(0, h, s, l)) && IsByte(Byte(8, h, s, l)) && IsByte(Byte(4, h, s, l))
    ensures IsHexColour(hex) ==>
      Channel(hex, 0) == Byte(0, h, s, l) && Channel(hex, 1) == Byte(8, h, s, l) && Channel(hex, 2) == Byte(4, h, s, l)
  {
    var red, green, blue := HexText(Byte(0, h, s, l)), HexText(Byte(8, h, s, l)), HexText(Byte(4, h, s, l));
    ThreeBytes(red, green, blue);
    "#" + red + green + blue
  }

  predicate IsByte(v: int) {
    0 <= v <= 255
  }

  /** The digits of a byte are the two of its value, in capitals. */
  lemma HexTextExactly(v: int)
    requires 0 <= v <= 255
    ensures HexText(v) == ["0123456789ABCDEF"[v / 16], "0123456789ABCDEF"[v % 16]]
  {
    assert v >= 16 ==> HexDigits(v / 16) == [UpperDigit(v / 16)];
    DigitExactly(v / 16);
    DigitExactly(v % 16);
  }

  lemma DigitExactly(d: int)
    requires 0 <= d < 16
    ensures UpperDigit(d) == "0123456789ABCDEF"[d]
  {
  }

  /** A colour is `#` and three times two capital digits: red, green and blue. */
  lemma ColourText(h: int, s: int, l: int)
    requires IsHexColour(HslToHex(h, s, l))
    ensures var red, green, blue := Byte(0, h, s, l), Byte(8, h, s, l), Byte(4, h, s, l);
      && 0 <= red <= 255 && 0 <= green <= 255 && 0 <= blue <= 255
      && HslToHex(h, s, l) == ['#',
           "0123456789ABCDEF"[red / 16], "0123456789ABCDEF"[red % 16],
           "0123456789ABCDEF"[green / 16], "0123456789ABCDEF"[green % 16],
           "0123456789ABCDEF"[blue / 16], "0123456789ABCDEF"[blue % 16]]
  {
    hide Byte;
    HexTextExactly(Byte(0, h, s, l));
    HexTextExactly(Byte(8, h, s, l));
    HexTextExactly(Byte(4, h, s, l));
  }

  /** Channel n at hue h is at the crest or in the trough of the wave. */
  predicate WaveIs(n: int, h: int, w: real) {
    Wave(Mod12(n as real + h as real / 30.0)) == w
  }

  lemma WaveAt(n: int, h: int, x: real)
    requires n as real + h as real / 30.0 == x && 0.0 <= x < 24.0
    ensures WaveIs(n, h, Wave(if x < 12.0 then x else x - 12.0))
  {
    Mod12Once(x);
  }

  lemma PureByte(n: int, h: int, w: real)
    requires WaveIs(n, h, w) && (w == -1.0 || w == 1.0)
    ensures Byte(n, h, 100, 50) == (if w == -1.0 then 255 else 0) && Byte(n, h, 0, 50) == 128
  {
    hide Wave, Mod12;
    assert Mix(1.0, 0.5, w) == (if w == -1.0 then 1.0 else 0.0) && Mix(0.0, 0.5, w) == 0.5;
  }

  /** The waves of the three channels. */
  predicate Waves(h: int, red: real, green: real, blue: real) {
    WaveIs(0, h, red) && WaveIs(8, h, green) && WaveIs(4, h, blue)
  }

  lemma PureWaves()
    ensures Waves(0, -1.0, 1.0, 1.0) && Waves(120, 1.0, -1.0, 1.0) && Waves(240, 1.0, 1.0, -1.0)
  {
    WaveAt(0, 0, 0.0);
    WaveAt(8, 0, 8.0);
    WaveAt(4, 0, 4.0);
    WaveAt(0, 120, 4.0);
    WaveAt(8, 120, 12.0);
    WaveAt(4, 120, 8.0);
    WaveAt(0, 240, 8.0);
    WaveAt(8, 240, 16.0);
    WaveAt(4, 240, 12.0);
  }

  function PureText(red: bool, green: bool, blue: bool): string {
    "#" + (if red then "FF" else "00") + (if green then "FF" else "00") + (if blue then "FF" else "00")
  }

  lemma PureTexts()
    ensures PureText(true, false, false) == "#FF0000" && PureText(false, true, false) == "#00FF00"
    ensures PureText(false, false, true) == "#0000FF"
  {
  }

  lemma PureColour(h: int, red: real, green: real, blue: real)
    requires Waves(h, red, green, blue)
    requires (red == -1.0 || red == 1.0) && (green == -1.0 || green == 1.0) && (blue == -1.0 || blue == 1.0)
    ensures HslToHex(h, 0, 50) == "#808080"
    ensures HslToHex(h, 100, 50) == PureText(red == -1.0, green == -1.0, blue == -1.0)
  {
    hide Byte, Wave, Mod12, HslToHex, IsHexColour, Channel;
    PureByte(0, h, red);
    PureByte(8, h, green);
    PureByte(4, h, blue);
    PercentIsColour(h, 0, 50);
    PercentIsColour(h, 100, 50);
    ColourText(h, 0, 50);
    ColourText(h, 100, 50);
  }

  /** The three pure colours and the middle grey. */
  lemma PureColours(h: int)
    ensures h == 0 ==> HslToHex(h, 100, 50) == "#FF0000" && HslToHex(h, 0, 50) == "#808080"
    ensures h == 120 ==> HslToHex(h, 100, 50) == "#00FF00"
    ensures h == 240 ==> HslToHex(h, 100, 50) == "#0000FF"
  {
    hide HslToHex, Waves, PureText;
    PureWaves();
    PureTexts();
    if h == 0 {
      PureColour(h, -1.0, 1.0, 1.0);
    } else if h == 120 {
      PureColour(h, 1.0, -1.0, 1.0);
    } else if h == 240 {
      PureColour(h, 1.0, 1.0, -1.0);
    }
  }

  predicate HexPair(s: string) {
    |s| == 2 && IsHexDigit(s[0]) && IsHexDigit(s[1])
  }

  lemma ThreeBytes(red: string, green: string, blue: string)
    requires |red| >= 2 && |green| >= 2 && |blue| >= 2
    ensures var hex := "#" + red + green + blue;
      && (IsHexColour(hex) <==> HexPair(red) && HexPair(green) && HexPair(blue))
      && (IsHexColour(hex) ==> Digits(hex)[0..2] == red && Digits(hex)[2..4] == green && Digits(hex)[4..6] == blue)
  {
    var hex := "#" + red + green + blue;
    assert Digits(hex) == red + green + blue;
    if |red| == |green| == |blue| == 2 {
      var d := Digits(hex);
      assert d == [red[0], red[1], green[0], green[1], blue[0], blue[1]];
      assert IsHexColour(hex) ==>
        IsHexDigit(d[0]) && IsHexDigit(d[1]) && IsHexDigit(d[2]) && IsHexDigit(d[3]) && IsHexDigit(d[4]) &&
          IsHexDigit(d[5]);
    }
  }

  /** Half the chroma, signed. */
  function HalfChromaOf(s: int, l: int): real {
    s as real / 100.0 * Min(l as real / 100.0, 1.0 - l as real / 100.0)
  }

  /** A saturation and lightness give a colour for every hue if and only if their lightest
      and their darkest channel are bytes; those are taken at hues 0 and 180. */
  lemma ColourForEveryHueExactly(s: int, l: int)
    ensures (forall h :: IsHexColour(HslToHex(h, s, l))) <==>
      IsByte(Round(255.0 * (l as real / 100.0 + HalfChromaOf(s, l)))) &&
        IsByte(Round(255.0 * (l as real / 100.0 - HalfChromaOf(s, l))))
  {
    var light, dark := l as real / 100.0 + HalfChromaOf(s, l), l as real / 100.0 - HalfChromaOf(s, l);
    Extremes(s, l);
    if IsByte(Round(255.0 * light)) && IsByte(Round(255.0 * dark)) {
      forall h ensures IsHexColour(HslToHex(h, s, l)) {
        ByteBetween(0, h, s, l);
        ByteBetween(8, h, s, l);
        ByteBetween(4, h, s, l);
      }
    } else {
      assert !IsHexColour(HslToHex(0, s, l)) || !IsHexColour(HslToHex(180, s, l));
    }
  }

  lemma Extremes(s: int, l: int)
    ensures Byte(0, 0, s, l) == Round(255.0 * (l as real / 100.0 + HalfChromaOf(s, l)))
    ensures Byte(0, 180, s, l) == Round(255.0 * (l as real / 100.0 - HalfChromaOf(s, l)))
  {
    Mod12Once(0.0);
    Mod12Once(6.0);
    assert 0 as real + 0 as real / 30.0 == 0.0 && 0 as real + 180 as real / 30.0 == 6.0;
    assert Wave(0.0) == -1.0 && Wave(6.0) == 1.0;
    MixAtPeak(s as real / 100.0, l as real / 100.0);
  }

  lemma MixAtPeak(s: real, l: real)
    ensures Mix(s, l, -1.0) == l + s * Min(l, 1.0 - l) && Mix(s, l, 1.0) == l - s * Min(l, 1.0 - l)
  {
  }

  lemma RoundMonotone(x: real, y: real)
    requires x <= y
    ensures Round(x) <= Round(y)
  {
  }

  lemma MixBetween(s: real, l: real, w: real)
    requires -1.0 <= w <= 1.0
    ensures Min(Mix(s, l, 1.0), Mix(s, l, -1.0)) <= Mix(s, l, w) <= Max(Mix(s, l, 1.0), Mix(s, l, -1.0))
  {
    BetweenPeaks(l, s * Min(l, 1.0 - l), w);
    MixAtPeak(s, l);
  }

  lemma BetweenPeaks(l: real, a: real, w: real)
    requires -1.0 <= w <= 1.0
    ensures Min(l - a, l + a) <= l - a * w <= Max(l - a, l + a)
    decreases a < 0.0
  {
    if a >= 0.0 {
      MulLe(w, 1.0, a);
      MulLe(-1.0, w, a);
    } else {
      var b := -a;
      assert l - b == l + a && l + b == l - a;
      Negated(a, w);
      BetweenPeaks(l, b, -w);
    }
  }

  lemma Negated(a: real, w: real)
    ensures (-a) * (-w) == a * w
  {
  }

  lemma ByteBetween(n: int, h: int, s: int, l: int)
    requires IsByte(Round(255.0 * (l as real / 100.0 + HalfChromaOf(s, l)))) &&
      IsByte(Round(255.0 * (l as real / 100.0 - HalfChromaOf(s, l))))
    ensures IsByte(Byte(n, h, s, l))
  {
    hide Wave, Mod12, Mix, Round;
    var s', l' := s as real / 100.0, l as real / 100.0;
    var w := Wave(Mod12(n as real + h as real / 30.0));
    WaveRange(Mod12(n as real + h as real / 30.0));
    MixAtPeak(s', l');
    MixBetween(s', l', w);
    var light, dark, x := l' + HalfChromaOf(s, l), l' - HalfChromaOf(s, l), Mix(s', l', w);
    assert Mix(s', l', -1.0) == light && Mix(s', l', 1.0) == dark;
    assert Byte(n, h, s, l) == Round(255.0 * x);
    var lo, hi := Min(dark, light), Max(dark, light);
    RoundMonotone(255.0 * lo, 255.0 * x);
    RoundMonotone(255.0 * x, 255.0 * hi);
  }

  /** In particular for saturation and lightness in percent. */
  lemma {:induction false} PercentIsColour(h: int, s: int, l: int)
    requires 0 <= s <= 100 && 0 <= l <= 100
    ensures IsHexColour(HslToHex(h, s, l))
  {
    ByteInRange(0, h, s, l);
    ByteInRange(8, h, s, l);
    ByteInRange(4, h, s, l);
  }

  lemma RoundedByteIsNear(exact: real, near: real, v: int)
    requires exact == v as real / 255.0 && Near(near, exact, 0.02084)
    ensures -5 <= Round(255.0 * near) - v <= 5
  {
    RoundIsClose(255.0 * near);
  }

  /** One channel through the rounded hue, saturation and lightness. */
  lemma ChannelMoves(n: int, h: real, s: real, l: real, v: int)
    requires (n == 0 || n == 4 || n == 8) && 0.0 <= h < 1.0 && Unit(s) && Unit(l)
    requires Shade(n, 360.0 * h, s, l) == v as real / 255.0
    ensures var h', s', l' := Round(h * 360.0), Round(s * 100.0), Round(l * 100.0);
      && 0 <= h' <= 360 && 0 <= s' <= 100 && 0 <= l' <= 100
      && -5 <= Byte(n, h', s', l') - v <= 5
  {
    hide Tint;
    var h', s', l' := Round(h * 360.0), Round(s * 100.0), Round(l * 100.0);
    RoundIsClose(h * 360.0);
    RoundIsClose(s * 100.0);
    RoundIsClose(l * 100.0);
    RoundInRange(h * 360.0, 0, 360);
    RoundInRange(s * 100.0, 0, 100);
    RoundInRange(l * 100.0, 0, 100);
    ShadeMoves(n, 360.0 * h, s, l, h' as real, s' as real / 100.0, l' as real / 100.0);
    RoundedByteIsNear(Shade(n, 360.0 * h, s, l), Shade(n, h' as real, s' as real / 100.0, l' as real / 100.0), v);
  }

  /** The exact hue, saturation and lightness of a colour given by its bytes. */
  ghost predicate ExactFor(red: int, green: int, blue: int, hue: real, sat: real, light: real) {
    Inverts(red as real / 255.0, green as real / 255.0, blue as real / 255.0, hue, sat, light)
  }

  /** They are rounded to degrees and percent. */
  ghost predicate RoundedFrom(red: int, green: int, blue: int, h: int, s: int, l: int) {
    exists hue, sat, light :: ExactFor(red, green, blue, hue, sat, light) &&
      h == Round(hue * 360.0) && s == Round(sat * 100.0) && l == Round(light * 100.0)
  }

  /** `hexToHsl`. The exact hue, saturation and lightness, rounded; no hue and saturation for a
      grey. For every six-digit colour, converting back moves each channel by at most
      5 of 255. */
  method HexToHsl(hex: string) returns (h: int, s: int, l: int)
    requires IsHexColour(hex)
    ensures 0 <= h <= 360 && 0 <= s <= 100 && 0 <= l <= 100
    ensures RoundedFrom(Channel(hex, 0), Channel(hex, 1), Channel(hex, 2), h, s, l)
    ensures Channel(hex, 0) == Channel(hex, 1) == Channel(hex, 2) ==> h == 0 && s == 0
    ensures IsHexColour(HslToHex(h, s, l))
    ensures forall i :: 0 <= i < 3 ==> -5 <= Channel(HslToHex(h, s, l), i) - Channel(hex, i) <= 5
  {
    hide Shade, Byte, HexText;
    var red, green, blue := Channel(hex, 0), Channel(hex, 1), Channel(hex, 2);
    var turns, saturation, lightness := ToHsl(red as real / 255.0, green as real / 255.0, blue as real / 255.0);
    ChannelMoves(0, turns, saturation, lightness, red);
    ChannelMoves(8, turns, saturation, lightness, green);
    ChannelMoves(4, turns, saturation, lightness, blue);
    h, s, l := Round(turns * 360.0), Round(saturation * 100.0), Round(lightness * 100.0);
    assert ExactFor(red, green, blue, turns, saturation, lightness);
    PercentIsColour(h, s, l);
  }
}
