/** The colour-ball detector object (src/models/colorDetection.js): its
    enable/run switches, the 100 ms throttle with its cached result, the scan
    of every colour range over one frame, and the operations that tune the
    ranges and thresholds. Capturing the frame from the video element is I/O:
    a frame arrives as its size, ready state and RGBA bytes. */
module ColorDetection {
  import opened Common
  import opened Assoc
  import opened ColorSpace
  import opened ColorMask

  /** detectionThrottle: the shortest spacing, in milliseconds, between two
      scans. */
  const DetectionThrottle: real := 100.0

  /** A video frame as the detector sees it. pixels is None when drawing or
      reading the canvas throws. */
  datatype Frame = Frame(videoWidth: nat, videoHeight: nat, readyState: int, pixels: Option<seq<Byte>>)

  /** The video element is present, has a non-zero size and has data for the
      current frame (readyState at least 2). */
  predicate FrameReady(video: Option<Frame>)
  {
    video.Some? && video.value.videoWidth != 0 && video.value.videoHeight != 0 && video.value.readyState >= 2
  }

  /** The canvas returns four bytes per pixel. */
  predicate WellFormedFrame(video: Option<Frame>)
  {
    video.Some? && video.value.pixels.Some?
    ==> |video.value.pixels.value| == 4 * (video.value.videoWidth * video.value.videoHeight)
  }

  /** The mask of one colour range over an RGBA frame, entry by entry. */
  function MaskOf(data: seq<Byte>, width: nat, height: nat, c: ColorRange): (m: seq<Byte>)
    requires |data| == 4 * (width * height)
    ensures |m| == width * height
  {
    seq(width * height, i requires 0 <= i < width * height => MaskEntry(data, i, c))
  }

  /** The lists joined in order. */
  function Concat<T>(ss: seq<seq<T>>): seq<T>
  {
    if ss == [] then [] else Concat(ss[..|ss| - 1]) + ss[|ss| - 1]
  }

  /** ds is the scan of every colour range's mask over the frame, joined in
      the order of the ranges: for each range, the regions of its mask and
      the qualifying ones among them give that range's detections. */
  ghost predicate ImageScan(data: seq<Byte>, width: nat, height: nat, ranges: seq<Entry<ColorRange>>,
                            params: DetectionParams, analyze: seq<Pixel> -> Option<BallInfo>, ds: seq<BallDetection>)
    requires |data| == 4 * (width * height)
  {
    exists scans: seq<seq<BallDetection>>, regions: seq<seq<seq<Pixel>>>, components: seq<seq<seq<Pixel>>> ::
      && |scans| == |ranges|
      && ds == Concat(scans)
      && ScansOfRanges(data, width, height, ranges, params, analyze, scans, regions, components)
  }

  /** Each scans[i] is what the mask of ranges[i] yields, with regions[i] its
      regions and components[i] the qualifying ones. */
  ghost predicate ScansOfRanges(data: seq<Byte>, width: nat, height: nat, ranges: seq<Entry<ColorRange>>,
                                params: DetectionParams, analyze: seq<Pixel> -> Option<BallInfo>,
                                scans: seq<seq<BallDetection>>, regions: seq<seq<seq<Pixel>>>,
                                components: seq<seq<seq<Pixel>>>)
    requires |data| == 4 * (width * height)
    decreases |scans|
  {
    && |regions| == |components| == |scans| <= |ranges|
    && (scans != [] ==>
         var i := |scans| - 1;
         && ScansOfRanges(data, width, height, ranges, params, analyze, scans[..i], regions[..i], components[..i])
         && MaskScan(MaskOf(data, width, height, ranges[i].val), width, height, regions[i], components[i], scans[i],
                     ranges[i].val.name, params, analyze))
  }

  lemma ScansAppend(data: seq<Byte>, width: nat, height: nat, ranges: seq<Entry<ColorRange>>,
                    params: DetectionParams, analyze: seq<Pixel> -> Option<BallInfo>,
                    scans: seq<seq<BallDetection>>, regions: seq<seq<seq<Pixel>>>, components: seq<seq<seq<Pixel>>>,
                    found: seq<BallDetection>, rs: seq<seq<Pixel>>, cs: seq<seq<Pixel>>)
    requires |data| == 4 * (width * height) && |scans| < |ranges|
    requires ScansOfRanges(data, width, height, ranges, params, analyze, scans, regions, components)
    requires MaskScan(MaskOf(data, width, height, ranges[|scans|].val), width, height, rs, cs, found,
                      ranges[|scans|].val.name, params, analyze)
    ensures ScansOfRanges(data, width, height, ranges, params, analyze, scans + [found], regions + [rs], components + [cs])
    ensures Concat(scans + [found]) == Concat(scans) + found
  {
    assert (scans + [found])[..|scans|] == scans;
    assert (regions + [rs])[..|scans|] == regions;
    assert (components + [cs])[..|scans|] == components;
  }

  /** Scans each colour range in order (_detectBallsInImage) and joins what
      each mask yields; every detection is well formed and carries the name
      of one of the ranges. */
  method DetectBallsInImage(data: seq<Byte>, width: nat, height: nat, ranges: seq<Entry<ColorRange>>,
                            params: DetectionParams, analyze: seq<Pixel> -> Option<BallInfo>)
    returns (detections: seq<BallDetection>)
    requires |data| == 4 * (width * height)
    ensures ImageScan(data, width, height, ranges, params, analyze, detections)
    ensures forall d :: d in detections ==>
              WellFormedDetection(d) && exists i :: 0 <= i < |ranges| && d.cls == ranges[i].val.name
  {
    detections := [];
    ghost var scans: seq<seq<BallDetection>> := [];
    ghost var regions: seq<seq<seq<Pixel>>> := [];
    ghost var components: seq<seq<seq<Pixel>>> := [];
    for i := 0 to |ranges|
      invariant |scans| == i && detections == Concat(scans)
      invariant ScansOfRanges(data, width, height, ranges, params, analyze, scans, regions, components)
      invariant NamedByRanges(detections, ranges, i)
    {
      var found;
      ghost var rs, cs;
      found, rs, cs := ScanRange(data, width, height, ranges[i].val, params, analyze);
      ScansAppend(data, width, height, ranges, params, analyze, scans, regions, components, found, rs, cs);
      NamedAppend(detections, found, ranges, i);
      detections := detections + found;
      scans, regions, components := scans + [found], regions + [rs], components + [cs];
    }
  }

  /** The mask of one colour range, and its scan. */
  method ScanRange(data: seq<Byte>, width: nat, height: nat, c: ColorRange,
                   params: DetectionParams, analyze: seq<Pixel> -> Option<BallInfo>)
    returns (found: seq<BallDetection>, ghost regions: seq<seq<Pixel>>, ghost components: seq<seq<Pixel>>)
    requires |data| == 4 * (width * height)
    ensures MaskScan(MaskOf(data, width, height, c), width, height, regions, components, found, c.name, params, analyze)
    ensures forall d :: d in found ==> WellFormedDetection(d) && d.cls == c.name
  {
    var mask := CreateColorMask(data, width, height, c);
    assert mask[..] == MaskOf(data, width, height, c);
    found, regions, components := FindBallsInMask(mask, width, height, c.name, params, analyze);
  }

  /** Every detection is well formed and named after one of the first n
      ranges. */
  predicate NamedByRanges(ds: seq<BallDetection>, ranges: seq<Entry<ColorRange>>, n: int)
  {
    forall d :: d in ds ==> WellFormedDetection(d) && exists j :: 0 <= j < n && j < |ranges| && d.cls == ranges[j].val.name
  }

  lemma NamedAppend(ds: seq<BallDetection>, found: seq<BallDetection>, ranges: seq<Entry<ColorRange>>, i: int)
    requires NamedByRanges(ds, ranges, i) && 0 <= i < |ranges|
    requires forall d :: d in found ==> WellFormedDetection(d) && d.cls == ranges[i].val.name
    ensures NamedByRanges(ds + found, ranges, i + 1)
  {
  }

  /** The keys present in an object spread over a colour range: Some means the
      key is given. A second-range bound given as a falsy value (null,
      undefined) is Some(None): it is stored, and the mask then skips the
      second range. */
  datatype RangeUpdate = RangeUpdate(
    lower: Option<Hsv>,
    upper: Option<Hsv>,
    lower2: Option<Option<Hsv>>,
    upper2: Option<Option<Hsv>>,
    name: Option<string>)

  const NoChange := RangeUpdate(None, None, None, None, None)

  function Pick<T>(given: Option<T>, current: T): T
  {
    if given.Some? then given.value else current
  }

  /** { ...c, ...u }: every key u gives replaces c's, the rest stay. */
  function Merge(c: ColorRange, u: RangeUpdate): ColorRange
  {
    ColorRange(Pick(u.lower, c.lower), Pick(u.upper, c.upper),
      Pick(u.lower2, c.lower2),
      Pick(u.upper2, c.upper2),
      Pick(u.name, c.name))
  }

  /** { ...u, ...u2 }: the later spread wins key by key. */
  function Then(u: RangeUpdate, u2: RangeUpdate): RangeUpdate
  {
    RangeUpdate(if u2.lower.Some? then u2.lower else u.lower,
      if u2.upper.Some? then u2.upper else u.upper,
      if u2.lower2.Some? then u2.lower2 else u.lower2,
      if u2.upper2.Some? then u2.upper2 else u.upper2,
      if u2.name.Some? then u2.name else u.name)
  }

  /** Spreading nothing changes nothing, spreading the same update twice is
      spreading it once, and two spreads in a row are one spread of their
      combination. */
  lemma MergeLaws(c: ColorRange, u: RangeUpdate, u2: RangeUpdate)
    ensures Merge(c, NoChange) == c
    ensures Merge(Merge(c, u), u) == Merge(c, u)
    ensures Merge(Merge(c, u), u2) == Merge(c, Then(u, u2))
  {
  }

  /** updateColorRange(name, {lower2: null}) switches the second range off:
      afterwards a pixel matches exactly when it is in the primary range. */
  lemma ClearingSecondRange(c: ColorRange, u: RangeUpdate, hsv: Hsv)
    requires u.lower2 == Some(None) || u.upper2 == Some(None)
    ensures InColorRange(hsv, Merge(c, u)) <==> IsInHsvRange(hsv, Pick(u.lower, c.lower), Pick(u.upper, c.upper))
  {
  }

  /** The keys present in the argument of setDetectionParams (those not
      undefined). */
  datatype ParamsUpdate = ParamsUpdate(
    minContourArea: Option<real>,
    maxContourArea: Option<real>,
    circularityThreshold: Option<real>,
    minConfidence: Option<real>)

  function ApplyParams(p: DetectionParams, u: ParamsUpdate): DetectionParams
  {
    DetectionParams(Pick(u.minContourArea, p.minContourArea), Pick(u.maxContourArea, p.maxContourArea),
      Pick(u.circularityThreshold, p.circularityThreshold), Pick(u.minConfidence, p.minConfidence))
  }

  const DefaultParams := DetectionParams(500.0, 50000.0, 0.7, 0.6)

  class Detector {
    var isEnabled: bool
    var isRunning: bool
    var lastDetections: seq<BallDetection>
    /** Milliseconds of the last scan that got past the throttle. */
    var lastDetectionTime: real
    var colorRanges: seq<Entry<ColorRange>>
    var params: DetectionParams
    /** Whether the off-screen canvases exist; dispose drops them. */
    var hasCanvases: bool

    ghost predicate Valid()
      reads this
    {
      Distinct(colorRanges) && forall d :: d in lastDetections ==> WellFormedDetection(d)
    }

    constructor()
      ensures Valid()
      ensures !isEnabled && !isRunning && lastDetections == [] && lastDetectionTime == 0.0
      ensures colorRanges == DefaultColorRanges() && params == DefaultParams && hasCanvases
    {
      isEnabled := false;
      isRunning := false;
      lastDetections := [];
      lastDetectionTime := 0.0;
      colorRanges := DefaultColorRanges();
      params := DefaultParams;
      hasCanvases := true;
    }

    /** setEnabled: disabling also drops the cached detections. */
    method SetEnabled(enabled: bool)
      requires Valid()
      modifies this
      ensures Valid()
      ensures isEnabled == enabled
      ensures lastDetections == if enabled then old(lastDetections) else []
      ensures isRunning == old(isRunning) && lastDetectionTime == old(lastDetectionTime)
      ensures colorRanges == old(colorRanges) && params == old(params) && hasCanvases == old(hasCanvases)
    {
      isEnabled := enabled;
      if !enabled {
        lastDetections := [];
      }
    }

    method SetRunning(running: bool)
      modifies this
      ensures isRunning == running
      ensures isEnabled == old(isEnabled) && lastDetections == old(lastDetections)
      ensures lastDetectionTime == old(lastDetectionTime)
      ensures colorRanges == old(colorRanges) && params == old(params) && hasCanvases == old(hasCanvases)
    {
      isRunning := running;
    }

    /** detectColorBalls at time now (Date.now()). Off: nothing, and no state
        changes. Within the throttle: the cached result, and no state changes.
        Otherwise the time is recorded first; a frame that is not ready gives
        nothing and keeps the cache; a capture that throws gives the cache; a
        scan replaces the cache with its result. */
    method DetectColorBalls(video: Option<Frame>, now: real, analyze: seq<Pixel> -> Option<BallInfo>)
      returns (r: seq<BallDetection>)
      requires Valid() && WellFormedFrame(video)
      modifies this
      ensures Valid()
      ensures forall d :: d in r ==> WellFormedDetection(d)
      ensures isEnabled == old(isEnabled) && isRunning == old(isRunning)
      ensures colorRanges == old(colorRanges) && params == old(params) && hasCanvases == old(hasCanvases)
      ensures !(old(isEnabled) && old(isRunning)) ==>
                r == [] && lastDetections == old(lastDetections) && lastDetectionTime == old(lastDetectionTime)
      ensures old(isEnabled) && old(isRunning) && now - old(lastDetectionTime) < DetectionThrottle ==>
                r == old(lastDetections) && lastDetections == old(lastDetections)
                && lastDetectionTime == old(lastDetectionTime)
      ensures old(isEnabled) && old(isRunning) && now - old(lastDetectionTime) >= DetectionThrottle ==>
                && lastDetectionTime == now
                && (!FrameReady(video) ==> r == [] && lastDetections == old(lastDetections))
                && (FrameReady(video) && (!hasCanvases || video.value.pixels.None?) ==>
                      r == old(lastDetections) && lastDetections == old(lastDetections))
                && (FrameReady(video) && hasCanvases && video.value.pixels.Some? ==>
                      lastDetections == r
                      && ImageScan(video.value.pixels.value, video.value.videoWidth, video.value.videoHeight,
                                   colorRanges, params, analyze, r)
                      && forall d :: d in r ==> exists i :: 0 <= i < |colorRanges| && d.cls == colorRanges[i].val.name)
    {
      if !isEnabled || !isRunning {
        return [];
      }
      if now - lastDetectionTime < DetectionThrottle {
        return lastDetections;
      }
      lastDetectionTime := now;
      if video.None? || video.value.videoWidth == 0 || video.value.videoHeight == 0 || video.value.readyState < 2 {
        return [];
      }
      if !hasCanvases || video.value.pixels.None? {
        return lastDetections;
      }
      var frame := video.value;
      r := DetectBallsInImage(frame.pixels.value, frame.videoWidth, frame.videoHeight, colorRanges, params, analyze);
      lastDetections := r;
    }

    /** getLatestDetections: a copy of the cache. */
    function GetLatestDetections(): (r: seq<BallDetection>)
      requires Valid()
      reads this
      ensures r == lastDetections && forall d :: d in r ==> WellFormedDetection(d)
    {
      lastDetections
    }

    /** getSupportedColors: the colour names in insertion order. */
    function GetSupportedColors(): (r: seq<string>)
      requires Valid()
      reads this
      ensures |r| == |colorRanges| && forall i :: 0 <= i < |r| ==> r[i] == colorRanges[i].key
      ensures forall i, j :: 0 <= i < j < |r| ==> r[i] != r[j]
    {
      Keys(colorRanges)
    }

    /** updateColorRange: a known colour takes the keys the update gives and
        keeps its other keys and its place; an unknown name changes nothing. */
    method UpdateColorRange(colorName: string, u: RangeUpdate)
      requires Valid()
      modifies this
      ensures Valid()
      ensures Keys(colorRanges) == Keys(old(colorRanges))
      ensures forall k :: Find(colorRanges, k) ==
                if k == colorName && Find(old(colorRanges), k).Some?
                then Some(Merge(Find(old(colorRanges), k).value, u))
                else Find(old(colorRanges), k)
      ensures isEnabled == old(isEnabled) && isRunning == old(isRunning) && lastDetections == old(lastDetections)
      ensures lastDetectionTime == old(lastDetectionTime) && params == old(params) && hasCanvases == old(hasCanvases)
    {
      var current := Find(colorRanges, colorName);
      if current.Some? {
        var merged := Merge(current.value, u);
        AssignExisting(colorRanges, colorName, merged);
        colorRanges := Assign(colorRanges, colorName, merged);
      }
    }

    /** setDetectionParams: each threshold given replaces the current one. */
    method SetDetectionParams(u: ParamsUpdate)
      modifies this
      ensures params == ApplyParams(old(params), u)
      ensures isEnabled == old(isEnabled) && isRunning == old(isRunning) && lastDetections == old(lastDetections)
      ensures lastDetectionTime == old(lastDetectionTime) && colorRanges == old(colorRanges)
      ensures hasCanvases == old(hasCanvases)
    {
      params := ApplyParams(params, u);
    }

    /** dispose: off, not running, no cache, no canvases. */
    method Dispose()
      requires Valid()
      modifies this
      ensures Valid()
      ensures !isEnabled && !isRunning && lastDetections == [] && !hasCanvases
      ensures lastDetectionTime == old(lastDetectionTime) && colorRanges == old(colorRanges) && params == old(params)
    {
      isEnabled := false;
      isRunning := false;
      lastDetections := [];
      hasCanvases := false;
    }
  }
}
