/** The display and arithmetic helpers of src/utils/helpers.js. */
module Helpers {
  import opened Common

  // ---------------------------------------------------------------------------
  // Decimal rendering (JavaScript's String(n) for integers) and its inverse
  // ---------------------------------------------------------------------------

  function DigitChar(d: nat): (c: char)
    requires d < 10
    ensures IsDigit(c) && DigitValue(c) == d
  {
    ('0' as int + d) as char
  }

  predicate IsDigit(c: char) { '0' <= c <= '9' }

  function DigitValue(c: char): int { c as int - '0' as int }

  /** The decimal digits of n, most significant first, without leading zeros. */
  function NatToString(n: nat): string
    decreases n
  {
    if n < 10 then [DigitChar(n)] else NatToString(n / 10) + [DigitChar(n % 10)]
  }

  /** The value of a string of decimal digits. */
  function DecValue(s: string): int
    decreases |s|
  {
    if s == [] then 0 else DecValue(s[..|s| - 1]) * 10 + DigitValue(s[|s| - 1])
  }

  function IntToString(i: int): string
  {
    if i < 0 then "-" + NatToString(-i) else NatToString(i)
  }

  /** Decimal rendering is non-empty, all digits, and parses back to n. */
  lemma {:induction false} DecimalRoundTrip(n: nat)
    ensures |NatToString(n)| >= 1
    ensures forall k :: 0 <= k < |NatToString(n)| ==> IsDigit(NatToString(n)[k])
    ensures DecValue(NatToString(n)) == n
    decreases n
  {
    if n >= 10 {
      DecimalRoundTrip(n / 10);
      var s := NatToString(n);
      assert s[..|s| - 1] == NatToString(n / 10);
    }
  }

  /** Numbers below 100 have at most two digits; from 10 on exactly two. */
  lemma TwoDigitLength(n: nat)
    requires 10 <= n < 100
    ensures |NatToString(n)| == 2
  {
    assert NatToString(n) == NatToString(n / 10) + [DigitChar(n % 10)];
  }

  // ---------------------------------------------------------------------------
  // formatTime (helpers.js:80-84)
  // ---------------------------------------------------------------------------

  /** "m:ss" for a non-negative whole number of seconds. */
  function FormatTime(seconds: nat): string
  {
    var mins := seconds / 60;
    var secs := seconds % 60;
    NatToString(mins) + ":" + (if secs < 10 then "0" else "") + NatToString(secs)
  }

  /** The rendering ends in ':' and exactly two digits ss < 60, and the minutes
      before the colon and the seconds after it add back up: m*60 + ss = s. */
  lemma FormatTimeParses(seconds: nat)
    ensures var t := FormatTime(seconds);
      && |t| >= 4
      && t[|t| - 3] == ':'
      && (forall k :: 0 <= k < |t| && k != |t| - 3 ==> IsDigit(t[k]))
      && DecValue(t[|t| - 2..]) < 60
      && DecValue(t[..|t| - 3]) * 60 + DecValue(t[|t| - 2..]) == seconds
  {
    var mins, secs := seconds / 60, seconds % 60;
    DecimalRoundTrip(mins);
    SecondsField(secs);
    var m := NatToString(mins);
    var ss := (if secs < 10 then "0" else "") + NatToString(secs);
    var t := FormatTime(seconds);
    assert t == m + ":" + ss;
    assert t[..|t| - 3] == m;
    assert t[|t| - 2..] == ss;
    forall k | 0 <= k < |t| && k != |t| - 3
      ensures IsDigit(t[k])
    {
      if k < |m| {
        assert t[k] == m[k];
      } else {
        assert t[k] == ss[k - |m| - 1];
      }
    }
  }

  /** The seconds field: two digits that read back as the seconds. */
  lemma SecondsField(secs: nat)
    requires secs < 60
    ensures var ss := (if secs < 10 then "0" else "") + NatToString(secs);
      |ss| == 2 && IsDigit(ss[0]) && IsDigit(ss[1]) && DecValue(ss) == secs
  {
    DecimalRoundTrip(secs);
    var ss := (if secs < 10 then "0" else "") + NatToString(secs);
    if secs < 10 {
      assert ss == ['0', DigitChar(secs)];
      assert DecValue(ss) == DecValue(ss[..1]) * 10 + DigitValue(ss[1]);
      assert ss[..1] == "0";
    } else {
      TwoDigitLength(secs);
      assert IsDigit(NatToString(secs)[0]) && IsDigit(NatToString(secs)[1]);
    }
  }

  // ---------------------------------------------------------------------------
  // formatDetectionResults (helpers.js:6-16)
  // ---------------------------------------------------------------------------

  const NoObjectsMessage: string := "No objects detected"

  /** One item of the list: "class (pct%)" with pct = Math.round(score * 100). */
  function FormatItem(p: Prediction): string
  {
    p.cls + " (" + IntToString(Round(p.score * 100.0)) + "%)"
  }

  function FormatItems(ps: seq<Prediction>): (r: seq<string>)
    ensures |r| == |ps|
    ensures forall k :: 0 <= k < |ps| ==> r[k] == FormatItem(ps[k])
  {
    if ps == [] then [] else FormatItems(ps[..|ps| - 1]) + [FormatItem(ps[|ps| - 1])]
  }

  /** Array.prototype.join. */
  function Join(items: seq<string>, sep: string): string
    decreases |items|
  {
    if items == [] then ""
    else if |items| == 1 then items[0]
    else Join(items[..|items| - 1], sep) + sep + items[|items| - 1]
  }

  /** null, undefined and [] all give the fixed message. */
  function FormatDetectionResults(predictions: Option<seq<Prediction>>): string
  {
    if predictions.None? || |predictions.value| == 0 then NoObjectsMessage
    else Join(FormatItems(predictions.value), ", ")
  }

  /** Joining a longer list extends the join of its prefix, so the items appear in
      input order, separated by ", ". */
  lemma {:induction false} JoinExtends(items: seq<string>, sep: string, i: nat)
    requires 1 <= i <= |items|
    ensures Join(items[..i], sep) <= Join(items, sep)
    ensures i < |items| ==> Join(items[..i], sep) + sep + items[i] <= Join(items, sep)
    decreases |items|
  {
    if i < |items| {
      var init := items[..|items| - 1];
      assert items[..i] == init[..i];
      if i < |init| {
        JoinExtends(init, sep, i);
      } else {
        assert init == items[..i];
      }
    } else {
      assert items[..i] == items;
    }
  }

  lemma {:induction false} JoinEndsWithLast(items: seq<string>, sep: string)
    requires |items| >= 1
    ensures var j := Join(items, sep);
      |j| >= |items[|items| - 1]| && j[|j| - |items[|items| - 1]|..] == items[|items| - 1]
  {
  }

  /** Non-empty input: the items joined in input order; the text ends in "%)" and
      so can never be mistaken for the empty-input message. */
  lemma FormatDetectionResultsNonEmpty(ps: seq<Prediction>)
    requires |ps| >= 1
    ensures var r := FormatDetectionResults(Some(ps));
      && FormatItem(ps[0]) <= r
      && r[|r| - 2..] == "%)"
      && r != NoObjectsMessage
  {
    var items := FormatItems(ps);
    var r := Join(items, ", ");
    assert FormatDetectionResults(Some(ps)) == r;
    JoinExtends(items, ", ", 1);
    assert items[..1] == [FormatItem(ps[0])];
    JoinEndsWithLast(items, ", ");
    var last := items[|items| - 1];
    assert last == FormatItem(ps[|ps| - 1]);
    FormatItemEnds(ps[|ps| - 1]);
    SuffixOfSuffix(r, last, 2);
    assert r[|r| - 2..] == last[|last| - 2..] == "%)";
    assert NoObjectsMessage[|NoObjectsMessage| - 2..] == "ed";
  }

  lemma FormatItemEnds(p: Prediction)
    ensures var f := FormatItem(p); |f| >= 2 && f[|f| - 2..] == "%)"
  {
  }

  /** The last n characters of a string ending in t are the last n of t. */
  lemma SuffixOfSuffix(s: string, t: string, n: nat)
    requires n <= |t| <= |s| && s[|s| - |t|..] == t
    ensures s[|s| - n..] == t[|t| - n..]
  {
    var d := |s| - |t|;
    forall k | |s| - n <= k < |s|
      ensures s[k] == t[k - d]
    {
      assert s[k] == s[d..][k - d];
    }
  }

  // ---------------------------------------------------------------------------
  // mapRange (helpers.js:27-29) and normalizeCoordinates (helpers.js:19-24)
  // ---------------------------------------------------------------------------

  /** Linear map of [inMin, inMax] onto [outMin, outMax]; an empty input range
      divides by zero and yields a non-finite number. */
  function MapRange(value: real, inMin: real, inMax: real, outMin: real, outMax: real): JsNumber
  {
    if inMax - inMin == 0.0 then NonFinite
    else Finite((value - inMin) * (outMax - outMin) / (inMax - inMin) + outMin)
  }

  /** The ends of the input range go to the ends of the output range. */
  lemma MapRangeEndpoints(inMin: real, inMax: real, outMin: real, outMax: real)
    requires inMin != inMax
    ensures MapRange(inMin, inMin, inMax, outMin, outMax) == Finite(outMin)
    ensures MapRange(inMax, inMin, inMax, outMin, outMax) == Finite(outMax)
  {
    var d := inMax - inMin;
    assert (inMax - inMin) * (outMax - outMin) / d == outMax - outMin;
  }

  /** Mapping back with the ranges swapped recovers the value: the map is an
      invertible affine function whenever both ranges are non-empty. */
  lemma MapRangeInverse(value: real, inMin: real, inMax: real, outMin: real, outMax: real)
    requires inMin != inMax && outMin != outMax
    ensures MapRange(value, inMin, inMax, outMin, outMax).Finite?
    ensures MapRange(MapRange(value, inMin, inMax, outMin, outMax).v, outMin, outMax, inMin, inMax)
            == Finite(value)
  {
    var di, dout := inMax - inMin, outMax - outMin;
    var t := (value - inMin) / di;
    ScaleThenDivide(value - inMin, dout, di);
    var w := t * dout + outMin;
    assert w - outMin == t * dout;
    ScaleThenDivide(t * dout, di, dout);
    ScaleThenDivide(t, dout, dout);
    ScaleThenDivide(value - inMin, di, di);
  }

  /** a * b / d is (a / d) * b. */
  lemma ScaleThenDivide(a: real, b: real, d: real)
    requires d != 0.0
    ensures a * b / d == (a / d) * b
    ensures (a / d) * d == a
  {
  }

  /** With increasing ranges on both sides the map is monotone. */
  lemma MapRangeMonotone(a: real, b: real, inMin: real, inMax: real, outMin: real, outMax: real)
    requires inMin < inMax && outMin <= outMax && a <= b
    ensures MapRange(a, inMin, inMax, outMin, outMax).v <= MapRange(b, inMin, inMax, outMin, outMax).v
  {
    var di, dout := inMax - inMin, outMax - outMin;
    assert (b - inMin) * dout - (a - inMin) * dout == (b - a) * dout;
    assert (b - a) * dout >= 0.0;
    assert (b - inMin) * dout / di - (a - inMin) * dout / di == (b - a) * dout / di;
  }

  datatype Point2 = Point2(x: JsNumber, y: JsNumber)

  function NormalizeCoordinates(x: real, y: real, width: real, height: real): Point2
  {
    Point2(if width == 0.0 then NonFinite else Finite(x / width),
           if height == 0.0 then NonFinite else Finite(y / height))
  }

  /** A point inside a non-empty frame lands in the unit square, and scaling back
      by the frame size recovers the pixel coordinates. */
  lemma NormalizeInUnitSquare(x: real, y: real, width: real, height: real)
    requires 0.0 <= x <= width && 0.0 <= y <= height && width > 0.0 && height > 0.0
    ensures var p := NormalizeCoordinates(x, y, width, height);
      && p.x.Finite? && p.y.Finite?
      && 0.0 <= p.x.v <= 1.0 && 0.0 <= p.y.v <= 1.0
      && p.x.v * width == x && p.y.v * height == y
  {
  }

  // ---------------------------------------------------------------------------
  // stringToColor (helpers.js:42-55)
  // ---------------------------------------------------------------------------

  const Two32: int := 0x1_0000_0000
  const Two31: int := 0x8000_0000

  /** ECMAScript ToInt32: the signed 32-bit value congruent to h mod 2^32. */
  function ToInt32(h: int): (r: int)
    ensures -Two31 <= r < Two31
    ensures r == h % Two32 || r == h % Two32 - Two32
  {
    var m := h % Two32;
    if m >= Two31 then m - Two32 else m
  }

  /** The value of `hash` after the loop over s, in exact arithmetic: each step
      is charCode + ((hash << 5) - hash), where `<<` wraps to int32 on both its
      operand and its result while the subtraction and addition do not. */
  function JsHash(s: string): int
    decreases |s|
  {
    if s == [] then 0
    else
      var h := JsHash(s[..|s| - 1]);
      s[|s| - 1] as int + (ToInt32(ToInt32(h) * 32) - h)
  }

  /** The 32-bit hash the colour is taken from: h := (31*h + charCode) mod 2^32. */
  function Hash32(s: string): (h: nat)
    ensures h < Two32
    decreases |s|
  {
    if s == [] then 0 else (31 * Hash32(s[..|s| - 1]) + s[|s| - 1] as int) % Two32
  }

  function Pow256(i: nat): (p: nat)
    requires i < 3
  {
    if i == 0 then 1 else if i == 1 then 256 else 65536
  }

  /** `(hash >> (i * 8)) & 0xFF`: arithmetic shift of the int32 value, then the
      low byte. */
  function ShiftedByte(hash: int, i: nat): (b: nat)
    requires i < 3
    ensures b < 256
  {
    (ToInt32(hash) / Pow256(i)) % 256
  }

  function HexDigit(d: nat): (c: char)
    requires d < 16
    ensures IsHexDigit(c) && HexDigitValue(c) == d
  {
    if d < 10 then ('0' as int + d) as char else ('a' as int + d - 10) as char
  }

  predicate IsHexDigit(c: char) { '0' <= c <= '9' || 'a' <= c <= 'f' }

  function HexDigitValue(c: char): int
  {
    if '0' <= c <= '9' then c as int - '0' as int else c as int - 'a' as int + 10
  }

  /** Number.prototype.toString(16). */
  function NatToHex(v: nat): string
    decreases v
  {
    if v < 16 then [HexDigit(v)] else NatToHex(v / 16) + [HexDigit(v % 16)]
  }

  /** ('00' + v.toString(16)).substr(-2) */
  function HexPair(v: nat): string
  {
    var t := "00" + NatToHex(v);
    t[|t| - 2..]
  }

  function HexValue(s: string): int
    decreases |s|
  {
    if s == [] then 0 else HexValue(s[..|s| - 1]) * 16 + HexDigitValue(s[|s| - 1])
  }

  function StringToColor(str: string): string
  {
    var hash := JsHash(str);
    "#" + HexPair(ShiftedByte(hash, 0)) + HexPair(ShiftedByte(hash, 1)) + HexPair(ShiftedByte(hash, 2))
  }

  // --- arithmetic facts -------------------------------------------------------

  // --- properties ---------------------------------------------------------------

  /** The literal JavaScript fold and the 32-bit fold agree modulo 2^32. */
  lemma {:induction false} JsHashMod(s: string)
    ensures JsHash(s) % Two32 == Hash32(s)
    decreases |s|
  {
    if s != [] {
      var p := s[..|s| - 1];
      var c := s[|s| - 1] as int;
      var h := JsHash(p);
      JsHashMod(p);
      var hm := h % Two32;
      // ToInt32 is congruent to its argument
      var t := ToInt32(h);
      var kt := if t == hm then 0 else -1;
      assert t == hm + kt * Two32;
      var u := ToInt32(t * 32);
      var ku := if u == (t * 32) % Two32 then 0 else -1;
      assert u == (t * 32) % Two32 + ku * Two32;
      assert t * 32 == (t * 32) / Two32 * Two32 + (t * 32) % Two32;
      assert h == h / Two32 * Two32 + hm;
      // JsHash(s) = c + u - h = 31*hm + c + (multiple of 2^32)
      var m := ku - (t * 32) / Two32 + 32 * kt - h / Two32;
      assert JsHash(s) == c + u - h;
      assert c + u - h == (31 * hm + c) + m * Two32;
      ModShift(31 * hm + c, m, Two32);
    }
  }

  /** Byte i of the int32 hash equals byte i of the 32-bit unsigned hash. */
  lemma ShiftedByteIsHashByte(hash: int, i: nat)
    requires i < 3
    ensures ShiftedByte(hash, i) == (hash % Two32 / Pow256(i)) % 256
  {
    var t := ToInt32(hash);
    var hm := hash % Two32;
    if t != hm {
      assert t == hm + (-1) * Two32;
      var p := Pow256(i);
      var k := Two32 / p;
      assert Two32 == k * p;
      ModShift(hm, -k, p);
      assert t / p == hm / p - k;
      assert k % 256 == 0;
      var k2 := k / 256;
      assert k == k2 * 256;
      ModShift(hm / p, -k2, 256);
    }
  }

  lemma HexPairDigits(v: nat)
    requires v < 256
    ensures HexPair(v) == [HexDigit(v / 16), HexDigit(v % 16)]
  {
    if v >= 16 {
      assert NatToHex(v) == NatToHex(v / 16) + [HexDigit(v % 16)];
      assert NatToHex(v / 16) == [HexDigit(v / 16)];
    }
  }

  lemma HexPairValue(v: nat)
    requires v < 256
    ensures |HexPair(v)| == 2 && IsHexDigit(HexPair(v)[0]) && IsHexDigit(HexPair(v)[1])
    ensures HexValue(HexPair(v)) == v
  {
    HexPairDigits(v);
    var p := HexPair(v);
    var hi, lo := HexDigit(v / 16), HexDigit(v % 16);
    assert p[..1] == [hi];
    assert [hi][..0] == [];
    assert HexValue([hi]) == HexDigitValue(hi);
    assert HexValue(p) == HexValue(p[..1]) * 16 + HexDigitValue(lo);
  }

  /** The colour is '#' followed by six lowercase hex digits. */
  lemma StringToColorShape(str: string)
    ensures var c := StringToColor(str);
      |c| == 7 && c[0] == '#' && forall k :: 1 <= k < 7 ==> IsHexDigit(c[k])
  {
    var h := JsHash(str);
    HexPairValue(ShiftedByte(h, 0));
    HexPairValue(ShiftedByte(h, 1));
    HexPairValue(ShiftedByte(h, 2));
    ColorShape(HexPair(ShiftedByte(h, 0)), HexPair(ShiftedByte(h, 1)), HexPair(ShiftedByte(h, 2)));
  }

  lemma ColorShape(p0: string, p1: string, p2: string)
    requires |p0| == |p1| == |p2| == 2
    requires IsHexDigit(p0[0]) && IsHexDigit(p0[1]) && IsHexDigit(p1[0])
    requires IsHexDigit(p1[1]) && IsHexDigit(p2[0]) && IsHexDigit(p2[1])
    ensures var c := "#" + p0 + p1 + p2;
      |c| == 7 && c[0] == '#' && forall k :: 1 <= k < 7 ==> IsHexDigit(c[k])
  {
    var c := "#" + p0 + p1 + p2;
    assert c[1] == p0[0] && c[2] == p0[1] && c[3] == p1[0];
    assert c[4] == p1[1] && c[5] == p2[0] && c[6] == p2[1];
  }

  /** The three hex pairs are bytes 0, 1 and 2 of the 32-bit hash, low byte first. */
  lemma StringToColorBytes(str: string)
    ensures var c := StringToColor(str);
      && |c| == 7
      && HexValue(c[1..3]) == Hash32(str) % 256
      && HexValue(c[3..5]) == Hash32(str) / 256 % 256
      && HexValue(c[5..7]) == Hash32(str) / 65536 % 256
  {
    var h := JsHash(str);
    JsHashMod(str);
    var c := StringToColor(str);
    HexPairValue(ShiftedByte(h, 0));
    HexPairValue(ShiftedByte(h, 1));
    HexPairValue(ShiftedByte(h, 2));
    ShiftedByteIsHashByte(h, 0);
    ShiftedByteIsHashByte(h, 1);
    ShiftedByteIsHashByte(h, 2);
    assert c[1..3] == HexPair(ShiftedByte(h, 0));
    assert c[3..5] == HexPair(ShiftedByte(h, 1));
    assert c[5..7] == HexPair(ShiftedByte(h, 2));
  }

  /** The empty string hashes to 0 and so renders black. */
  lemma StringToColorEmpty()
    ensures StringToColor("") == "#000000"
  {
    assert HexPair(0) == "00";
  }
}
