/** The colour arithmetic of the ball detector (src/models/colorDetection.js):
    RGB to HSV in OpenCV's convention, the inclusive HSV range test, and the
    built-in colour ranges, one of which (red) wraps around the hue circle. */
module ColorSpace {
  import opened Common
  import opened Assoc

  /** One channel of an RGBA pixel as a canvas ImageData holds it. */
  type Byte = x: int | 0 <= x < 256

  /** A colour in OpenCV's HSV convention: hue 0..180, saturation and value
      0..255. Range bounds use the same triple. */
  datatype Hsv = Hsv(h: int, s: int, v: int)

  function Max3(a: real, b: real, c: real): real { MaxR(MaxR(a, b), c) }

  function Min3(a: real, b: real, c: real): real { MinR(MinR(a, b), c) }

  /** The hue as a fraction of the full circle, for channels in [0, 1]. The
      branch is chosen by which channel equals the maximum, red first. */
  function HueFraction(r: real, g: real, b: real): real
  {
    var mx := Max3(r, g, b);
    var d := mx - Min3(r, g, b);
    if d == 0.0 then 0.0
    else if mx == r then ((g - b) / d + (if g < b then 6.0 else 0.0)) / 6.0
    else if mx == g then ((b - r) / d + 2.0) / 6.0
    else ((r - g) / d + 4.0) / 6.0
  }

  lemma QuotientBounds(a: real, d: real)
    requires d > 0.0 && -d <= a <= d
    ensures -1.0 <= a / d <= 1.0
    ensures a < 0.0 ==> a / d < 0.0
    ensures a >= 0.0 ==> a / d >= 0.0
  {
    var q := a / d;
    assert q * d == a;
    if q > 1.0 || q < -1.0 {
      assert false;
    }
  }

  /** The hue fraction of channels in [0, 1] is itself in [0, 1]. */
  lemma HueFractionRange(r: real, g: real, b: real)
    requires 0.0 <= r <= 1.0 && 0.0 <= g <= 1.0 && 0.0 <= b <= 1.0
    ensures 0.0 <= HueFraction(r, g, b) <= 1.0
  {
    var mx := Max3(r, g, b);
    var d := mx - Min3(r, g, b);
    if d != 0.0 {
      if mx == r {
        QuotientBounds(g - b, d);
      } else if mx == g {
        QuotientBounds(b - r, d);
      } else {
        QuotientBounds(r - g, d);
      }
    }
  }

  /** The saturation fraction: 0 for black, otherwise (max - min) / max. */
  function SatFraction(r: real, g: real, b: real): real
  {
    var mx := Max3(r, g, b);
    if mx == 0.0 then 0.0 else (mx - Min3(r, g, b)) / mx
  }

  /** _rgbToHsv: channels are scaled to [0, 1], hue is scaled to 0..180 and
      saturation and value to 0..255, each rounded with Math.round. */
  function RgbToHsv(r: Byte, g: Byte, b: Byte): (hsv: Hsv)
    ensures 0 <= hsv.h <= 180 && 0 <= hsv.s <= 255 && 0 <= hsv.v <= 255
    ensures hsv.v == Max(Max(r, g), b)
    ensures hsv.s == 0 <==> r == g == b
    ensures r == g == b ==> hsv == Hsv(0, 0, r)
  {
    var rn, gn, bn := r as real / 255.0, g as real / 255.0, b as real / 255.0;
    HueFractionRange(rn, gn, bn);
    SaturationBounds(r, g, b);
    ValueScales(r, g, b);
    Hsv(Round(HueFraction(rn, gn, bn) * 180.0), Round(SatFraction(rn, gn, bn) * 255.0),
        Round(Max3(rn, gn, bn) * 255.0))
  }

  function Max(a: int, b: int): int { if a >= b then a else b }

  /** Scaling to [0, 1] and back gives the largest channel exactly. */
  lemma ValueScales(r: Byte, g: Byte, b: Byte)
    ensures Max3(r as real / 255.0, g as real / 255.0, b as real / 255.0) * 255.0 == Max(Max(r, g), b) as real
    ensures 0.0 <= Max3(r as real / 255.0, g as real / 255.0, b as real / 255.0) <= 1.0
  {
  }

  /** The normalised extremes are the byte extremes over 255. */
  lemma ExtremesScale(r: Byte, g: Byte, b: Byte)
    ensures Max3(r as real / 255.0, g as real / 255.0, b as real / 255.0) == Max(Max(r, g), b) as real / 255.0
    ensures Min3(r as real / 255.0, g as real / 255.0, b as real / 255.0) == Min(Min(r, g), b) as real / 255.0
  {
  }

  /** (M - m) / M lies in [0, 1], and times 255 it is at least 1 when m < M. */
  lemma SpreadRatio(mx: int, mn: int)
    requires 0 <= mn <= mx <= 255 && mx > 0
    ensures var q := (mx - mn) as real / mx as real;
      0.0 <= q <= 1.0 && (mn < mx ==> q * 255.0 >= 1.0) && (mn == mx ==> q == 0.0)
  {
    var q := (mx - mn) as real / mx as real;
    assert q * mx as real == (mx - mn) as real;
    QuotientBounds((mx - mn) as real, mx as real);
    if mn < mx {
      assert q * 255.0 >= q * mx as real;
    }
  }

  /** Scaling both extremes by 1/255 leaves their spread ratio unchanged. */
  lemma ScaledRatio(mx: int, mn: int)
    requires mx > 0
    ensures (mx as real / 255.0 - mn as real / 255.0) / (mx as real / 255.0) == (mx - mn) as real / mx as real
  {
    var a, c := mx as real / 255.0, mn as real / 255.0;
    assert a - c == (mx - mn) as real / 255.0;
  }

  /** Saturation times 255 lies in [0, 255], and it is at least 1 exactly when
      the channels differ. */
  lemma SaturationBounds(r: Byte, g: Byte, b: Byte)
    ensures var s := SatFraction(r as real / 255.0, g as real / 255.0, b as real / 255.0);
      0.0 <= s <= 1.0 && (r == g == b <==> s == 0.0) && (s != 0.0 ==> s * 255.0 >= 1.0)
  {
    var mx, mn := Max(Max(r, g), b), Min(Min(r, g), b);
    ExtremesScale(r, g, b);
    if mx != 0 {
      ScaledRatio(mx, mn);
      SpreadRatio(mx, mn);
    }
  }

  /** _isInHsvRange: every channel lies within its inclusive bounds. */
  predicate IsInHsvRange(hsv: Hsv, lower: Hsv, upper: Hsv)
  {
    lower.h <= hsv.h <= upper.h && lower.s <= hsv.s <= upper.s && lower.v <= hsv.v <= upper.v
  }

  /** A colour to look for: a primary range, an optional second range (used
      only when both of its bounds are present) and the class name reported. */
  datatype ColorRange = ColorRange(lower: Hsv, upper: Hsv, lower2: Option<Hsv>, upper2: Option<Hsv>, name: string)

  /** The test the mask applies to one pixel. */
  predicate InColorRange(hsv: Hsv, c: ColorRange)
  {
    IsInHsvRange(hsv, c.lower, c.upper)
    || (c.lower2.Some? && c.upper2.Some? && IsInHsvRange(hsv, c.lower2.value, c.upper2.value))
  }

  /** The built-in colours, in the order the detector scans them. */
  function DefaultColorRanges(): seq<Entry<ColorRange>>
  {
    [ Entry("red", ColorRange(Hsv(0, 120, 70), Hsv(10, 255, 255), Some(Hsv(170, 120, 70)), Some(Hsv(180, 255, 255)), "red ball")),
      Entry("blue", ColorRange(Hsv(100, 120, 70), Hsv(130, 255, 255), None, None, "blue ball")),
      Entry("green", ColorRange(Hsv(40, 120, 70), Hsv(80, 255, 255), None, None, "green ball")),
      Entry("yellow", ColorRange(Hsv(20, 120, 70), Hsv(40, 255, 255), None, None, "yellow ball")),
      Entry("orange", ColorRange(Hsv(10, 120, 70), Hsv(20, 255, 255), None, None, "orange ball")),
      Entry("purple", ColorRange(Hsv(130, 120, 70), Hsv(170, 255, 255), None, None, "purple ball")) ]
  }

  /** The ranges that accept hsv are exactly those whose names are given. */
  predicate AcceptedBy(ranges: seq<Entry<ColorRange>>, hsv: Hsv, names: set<string>)
  {
    forall i :: 0 <= i < |ranges| ==> (InColorRange(hsv, ranges[i].val) <==> ranges[i].key in names)
  }

  lemma HueAt(r: Byte, g: Byte, b: Byte, h: int)
    requires HueFraction(r as real / 255.0, g as real / 255.0, b as real / 255.0) * 180.0 == h as real
    requires Min(Min(r, g), b) == 0 && Max(Max(r, g), b) > 0
    ensures RgbToHsv(r, g, b) == Hsv(h, 255, Max(Max(r, g), b))
  {
    var rn, gn, bn := r as real / 255.0, g as real / 255.0, b as real / 255.0;
    ExtremesScale(r, g, b);
    var mx := Max3(rn, gn, bn);
    assert Min3(rn, gn, bn) == 0.0;
    assert mx > 0.0;
    RatioToSelf(mx);
    assert SatFraction(rn, gn, bn) == 1.0;
  }

  lemma RatioToSelf(a: real)
    requires a > 0.0
    ensures (a - 0.0) / a == 1.0
  {
  }

  /** Saturated primary and secondary colours are picked up by the range of
      their own name and by no other built-in range. */
  lemma PureColorsMatchOwnRange()
    ensures AcceptedBy(DefaultColorRanges(), RgbToHsv(255, 0, 0), {"red"})
    ensures AcceptedBy(DefaultColorRanges(), RgbToHsv(0, 255, 0), {"green"})
    ensures AcceptedBy(DefaultColorRanges(), RgbToHsv(0, 0, 255), {"blue"})
    ensures AcceptedBy(DefaultColorRanges(), RgbToHsv(255, 255, 0), {"yellow"})
    ensures AcceptedBy(DefaultColorRanges(), RgbToHsv(128, 0, 128), {"purple"})
  {
    PureRed();
    PureGreen();
    PureBlue();
    PureYellow();
    PurePurple();
  }

  lemma PureRed()
    ensures AcceptedBy(DefaultColorRanges(), RgbToHsv(255, 0, 0), {"red"})
  {
    HueAt(255, 0, 0, 0);
    SaturatedAccepted(0, 255, {"red"});
  }

  lemma PureGreen()
    ensures AcceptedBy(DefaultColorRanges(), RgbToHsv(0, 255, 0), {"green"})
  {
    HueAt(0, 255, 0, 60);
    SaturatedAccepted(60, 255, {"green"});
  }

  lemma PureBlue()
    ensures AcceptedBy(DefaultColorRanges(), RgbToHsv(0, 0, 255), {"blue"})
  {
    HueAt(0, 0, 255, 120);
    SaturatedAccepted(120, 255, {"blue"});
  }

  lemma PureYellow()
    ensures AcceptedBy(DefaultColorRanges(), RgbToHsv(255, 255, 0), {"yellow"})
  {
    HueAt(255, 255, 0, 30);
    SaturatedAccepted(30, 255, {"yellow"});
  }

  lemma PurePurple()
    ensures AcceptedBy(DefaultColorRanges(), RgbToHsv(128, 0, 128), {"purple"})
  {
    HueAt(128, 0, 128, 150);
    SaturatedAccepted(150, 128, {"purple"});
  }

  /** The built-in ranges that accept a fully saturated, bright pixel of hue
      0, 30, 60, 120 or 150. */
  lemma SaturatedAccepted(h: int, v: int, names: set<string>)
    requires 70 <= v <= 255
    requires (h == 0 && names == {"red"}) || (h == 30 && names == {"yellow"}) || (h == 60 && names == {"green"})
             || (h == 120 && names == {"blue"}) || (h == 150 && names == {"purple"})
    ensures AcceptedBy(DefaultColorRanges(), Hsv(h, 255, v), names)
  {
    var rs := DefaultColorRanges();
    assert rs[0].key == "red" && rs[1].key == "blue" && rs[2].key == "green";
    assert rs[3].key == "yellow" && rs[4].key == "orange" && rs[5].key == "purple";
  }

  /** Hues on a shared bound belong to two colours: a saturated, bright pixel
      of hue 10 is both red and orange, one of hue 20 both orange and yellow;
      hue 175 is red through the second range only. */
  lemma BoundaryHuesShared(s: int, v: int)
    requires 120 <= s <= 255 && 70 <= v <= 255
    ensures AcceptedBy(DefaultColorRanges(), Hsv(10, s, v), {"red", "orange"})
    ensures AcceptedBy(DefaultColorRanges(), Hsv(20, s, v), {"orange", "yellow"})
    ensures AcceptedBy(DefaultColorRanges(), Hsv(175, s, v), {"red"})
    ensures !IsInHsvRange(Hsv(175, s, v), Hsv(0, 120, 70), Hsv(10, 255, 255))
  {
    RedOrangeShared(s, v);
    OrangeYellowShared(s, v);
    WrappedRed(s, v);
  }

  lemma RedOrangeShared(s: int, v: int)
    requires 120 <= s <= 255 && 70 <= v <= 255
    ensures AcceptedBy(DefaultColorRanges(), Hsv(10, s, v), {"red", "orange"})
  {
  }

  lemma OrangeYellowShared(s: int, v: int)
    requires 120 <= s <= 255 && 70 <= v <= 255
    ensures AcceptedBy(DefaultColorRanges(), Hsv(20, s, v), {"orange", "yellow"})
  {
  }

  lemma WrappedRed(s: int, v: int)
    requires 120 <= s <= 255 && 70 <= v <= 255
    ensures AcceptedBy(DefaultColorRanges(), Hsv(175, s, v), {"red"})
  {
  }
}
