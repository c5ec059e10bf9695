/** The noise-gate helpers (src/audio/effects/noiseUtils.js). They read and
    write dotted property paths, and merge the gate's defaults with the
    caller's options. They add adaptive-threshold and reset behaviour to a
    gate, tune a gate's parameters, and raise the threshold briefly on a
    signal peak. A gate is a JavaScript object reached through a reference;
    calls to its threshold's rampTo are recorded as events. */
module NoiseUtils {
  import opened Common
  import opened Assoc
  import opened JsValues
  import opened Helpers

  // ---------------------------------------------------------------------------
  // _safeGet / _safeSet
  // ---------------------------------------------------------------------------

  /** The value at a path, stopping with undefined as soon as a null or
      undefined value would have to be read from. */
  function GetPath(v: JsValue, parts: seq<string>): JsValue
    decreases |parts|
  {
    if parts == [] then v
    else if v.Null? || v.Undefined? then Undefined
    else GetPath(Get(v, parts[0]), parts[1..])
  }

  /** A null or undefined value met before the last step makes the whole
      read undefined. */
  lemma {:induction false} GetPathNullish(v: JsValue, parts: seq<string>, j: nat)
    requires j < |parts|
    requires GetPath(v, parts[..j]).Null? || GetPath(v, parts[..j]).Undefined?
    ensures GetPath(v, parts) == Undefined
    decreases j
  {
    if j > 0 && !(v.Null? || v.Undefined?) {
      assert parts[..j][1..] == parts[1..][..j - 1];
      GetPathNullish(Get(v, parts[0]), parts[1..], j - 1);
    }
  }

  /** A string met on the path reads like an object of its length and its
      characters: name.length is the length of the string at name, and
      name.i its i-th character. */
  lemma GetPathThroughString(v: JsValue, name: string, s: string, i: nat)
    requires !(v.Null? || v.Undefined?) && Get(v, name) == Str(s)
    ensures GetPath(v, [name, "length"]) == Num(|s| as real)
    ensures i < |s| ==> GetPath(v, [name, NatToString(i)]) == Str([s[i]])
  {
    StringOwnProps(s, i);
    forall k | k == "length" || (k == NatToString(i) && i < |s|)
      ensures GetPath(v, [name, k]) == Get(Str(s), k)
    {
      assert [name, k][1..] == [k] && [k][1..] == [];
      assert GetPath(Str(s), [k]) == GetPath(Get(Str(s), k), []);
    }
  }

  /** _safeGet: a falsy root gives undefined; otherwise the path is walked
      one segment at a time. */
  method SafeGet(obj: JsValue, path: string) returns (r: JsValue)
    ensures r == if !Truthy(obj) then Undefined else GetPath(obj, Split(path, '.'))
  {
    if !Truthy(obj) {
      return Undefined;
    }
    var parts := Split(path, '.');
    var current := obj;
    for i := 0 to |parts|
      invariant GetPath(obj, parts) == GetPath(current, parts[i..])
    {
      assert parts[i..][1..] == parts[i + 1..];
      if current.Null? || current.Undefined? {
        return Undefined;
      }
      current := Get(current, parts[i]);
    }
    assert parts[|parts|..] == [];
    r := current;
  }

  /** How _safeSet ends. Written: the last segment was assigned. Refused: it
      returned false (a segment missing or not an object, or the final write
      threw and was caught). Throws: `in` was applied to a primitive or to
      null, which throws outside the try. */
  datatype SetStatus = Written | Refused | Throws

  /** The checks _safeSet makes from current along the remaining segments. */
  function WalkStatus(current: JsValue, parts: seq<string>): SetStatus
    requires |parts| >= 1
    decreases |parts|
  {
    if |parts| == 1 then (if HasProps(current) then Written else Refused)
    else if !HasProps(current) then Throws
    else if !Has(current, parts[0]) || !TypeofObject(Get(current, parts[0])) then Refused
    else WalkStatus(Get(current, parts[0]), parts[1..])
  }

  /** The object after current[last] = x, seen from the root. Objects are
      values here, so each object on the path is rebuilt. */
  function SetPath(v: JsValue, parts: seq<string>, x: JsValue): JsValue
    requires |parts| >= 1 && WalkStatus(v, parts) == Written
    decreases |parts|
  {
    if |parts| == 1 then Put(v, parts[0], x)
    else Put(v, parts[0], SetPath(Get(v, parts[0]), parts[1..], x))
  }

  /** What _safeSet(obj, path, x) returns and the object afterwards. */
  function SafeSetOutcome(obj: JsValue, path: string, x: JsValue): (SetStatus, JsValue)
  {
    if !Truthy(obj) then (Refused, obj)
    else
      var parts := Split(path, '.');
      var st := WalkStatus(obj, parts);
      (st, if st == Written then SetPath(obj, parts, x) else obj)
  }

  /** _safeSet: the loop checks every segment but the last, then the last is
      assigned. */
  method SafeSet(obj: JsValue, path: string, value: JsValue) returns (status: SetStatus, result: JsValue)
    ensures (status, result) == SafeSetOutcome(obj, path, value)
  {
    if !Truthy(obj) {
      return Refused, obj;
    }
    var parts := Split(path, '.');
    var current := obj;
    var i := 0;
    while i < |parts| - 1
      invariant 0 <= i <= |parts| - 1
      invariant WalkStatus(obj, parts) == WalkStatus(current, parts[i..])
    {
      WalkStep(current, parts, i);
      var part := parts[i];
      if !HasProps(current) {
        return Throws, obj;
      }
      if !Has(current, part) || !TypeofObject(Get(current, part)) {
        return Refused, obj;
      }
      current := Get(current, part);
      i := i + 1;
    }
    assert |parts[i..]| == 1;
    if !HasProps(current) {
      return Refused, obj;
    }
    status, result := Written, SetPath(obj, parts, value);
  }

  /** One iteration of _safeSet's loop: the status from segment i on. */
  lemma WalkStep(current: JsValue, parts: seq<string>, i: nat)
    requires i < |parts| - 1
    ensures WalkStatus(current, parts[i..]) ==
      if !HasProps(current) then Throws
      else if !Has(current, parts[i]) || !TypeofObject(Get(current, parts[i])) then Refused
      else WalkStatus(Get(current, parts[i]), parts[i + 1..])
  {
    assert parts[i..][1..] == parts[i + 1..];
  }

  /** A write that succeeded is read back by the same path. */
  lemma {:induction false} SetThenGet(v: JsValue, parts: seq<string>, x: JsValue)
    requires |parts| >= 1 && WalkStatus(v, parts) == Written
    ensures GetPath(SetPath(v, parts, x), parts) == x
    decreases |parts|
  {
    var p := parts[0];
    if |parts| == 1 {
      GetPut(v, p, x, p);
      assert parts[1..] == [];
    } else {
      SetThenGet(Get(v, p), parts[1..], x);
      GetPut(v, p, SetPath(Get(v, p), parts[1..], x), p);
    }
  }

  /** For a plain object, _safeSet returning true is followed by _safeGet of
      the same path giving the value written. */
  lemma SafeSetThenSafeGet(obj: JsValue, path: string, x: JsValue)
    requires SafeSetOutcome(obj, path, x).0 == Written
    ensures var after := SafeSetOutcome(obj, path, x).1;
      Truthy(after) && GetPath(after, Split(path, '.')) == x
  {
    SetThenGet(obj, Split(path, '.'), x);
  }

  /** A path that leaves the written path at some segment reads the same
      before and after the write: only the final key is assigned. */
  lemma {:induction false} SetPathElsewhere(v: JsValue, parts: seq<string>, x: JsValue, q: seq<string>, j: nat)
    requires |parts| >= 1 && WalkStatus(v, parts) == Written
    requires j < |parts| && j < |q| && q[..j] == parts[..j] && q[j] != parts[j]
    ensures GetPath(SetPath(v, parts, x), q) == GetPath(v, q)
    decreases j
  {
    var p := parts[0];
    if j == 0 {
      if |parts| == 1 {
        GetPut(v, p, x, q[0]);
      } else {
        GetPut(v, p, SetPath(Get(v, p), parts[1..], x), q[0]);
      }
    } else {
      assert q[0] == p by {
        assert q[..j][0] == parts[..j][0];
      }
      assert q[1..][..j - 1] == parts[1..][..j - 1] by {
        assert q[1..][..j - 1] == q[..j][1..];
        assert parts[1..][..j - 1] == parts[..j][1..];
      }
      SetPathElsewhere(Get(v, p), parts[1..], x, q[1..], j - 1);
      GetPut(v, p, SetPath(Get(v, p), parts[1..], x), p);
    }
  }

  /** _safeSet writes only when every object on the way exists and is a
      plain object (not null, not a function). */
  lemma {:induction false} WrittenNeedsObjects(v: JsValue, parts: seq<string>, j: nat)
    requires |parts| >= 1 && WalkStatus(v, parts) == Written
    requires 0 < j < |parts|
    ensures GetPath(v, parts[..j]).Obj?
    decreases j
  {
    var child := Get(v, parts[0]);
    assert parts[..j][1..] == parts[1..][..j - 1];
    if j > 1 {
      WrittenNeedsObjects(child, parts[1..], j - 1);
    } else {
      assert parts[..j][1..] == [];
    }
  }

  // ---------------------------------------------------------------------------
  // Defaults of createEnhancedNoiseGate
  // ---------------------------------------------------------------------------

  function GateDefaults(): seq<Entry<JsValue>>
  {
    [ Entry("threshold", Num(-35.0)), Entry("smoothing", Num(0.1)),
      Entry("attack", Num(0.005)), Entry("release", Num(0.1)) ]
  }

  /** { ...defaults, ...options }: every option given wins, every other
      setting keeps its default. */
  function GateSettings(options: seq<Entry<JsValue>>): (s: seq<Entry<JsValue>>)
    requires Distinct(options)
    ensures forall k :: Find(s, k) == if HasKey(options, k) then Find(options, k) else Find(GateDefaults(), k)
  {
    var s := Spread(GateDefaults(), options);
    forall k
      ensures Find(s, k) == if HasKey(options, k) then Find(options, k) else Find(GateDefaults(), k)
    {
      SpreadFind(GateDefaults(), options, k);
    }
    s
  }

  // ---------------------------------------------------------------------------
  // The gate and its threshold
  // ---------------------------------------------------------------------------

  /** rampTo(target, seconds) on the threshold, and the restore that
      handlePeakSignal schedules 150 ms later with the threshold to restore. */
  datatype Event = RampTo(target: real, seconds: real) | RestoreScheduled(threshold: real)

  /** The ids of the function objects _enhanceGate installs. */
  const AdaptThresholdFn: nat := 1
  const ResetToDefaultsFn: nat := 2

  /** a || d. */
  function OrDefault(a: JsValue, d: JsValue): JsValue
  {
    if Truthy(a) then a else d
  }

  /** What _enhanceGate stores as _originalSettings. */
  function OriginalSettings(g: JsValue): JsValue
  {
    Obj([ Entry("threshold", OrDefault(GetPath(g, ["threshold", "value"]), Num(-30.0))),
          Entry("attack", OrDefault(Get(g, "attack"), Num(0.005))),
          Entry("release", OrDefault(Get(g, "release"), Num(0.1))) ])
  }

  /** The gate after _enhanceGate: only a gate object whose threshold is an
      object is enhanced. */
  function Enhanced(g: JsValue): JsValue
  {
    if !g.Obj? || !Get(g, "threshold").Obj? then g
    else
      Put(Put(Put(Put(g, "_originalSettings", OriginalSettings(g)), "adaptiveMode", Bool(false)),
        "adaptThreshold", Func(AdaptThresholdFn, [])), "resetToDefaults", Func(ResetToDefaultsFn, []))
  }

  /** The threshold adaptThreshold aims for: 10 dB under the level, kept
      within [-50, -20]. */
  function AdaptTarget(level: real): (t: real)
    ensures -50.0 <= t <= -20.0
    ensures -40.0 <= level <= -10.0 ==> t == level - 10.0
    ensures level < -40.0 ==> t == -50.0
    ensures level > -10.0 ==> t == -20.0
  {
    MaxR(-50.0, MinR(-20.0, level - 10.0))
  }

  /** A louder level never gives a lower target. */
  lemma AdaptTargetMonotone(a: real, b: real)
    requires a <= b
    ensures AdaptTarget(a) <= AdaptTarget(b)
  {
  }

  /** The gate after resetToDefaults. */
  function Reset(g: JsValue): JsValue
  {
    var orig := Get(g, "_originalSettings");
    if !g.Obj? || !Truthy(orig) then g
    else
      var th := Get(g, "threshold");
      var g1 := if th.Obj? then Put(g, "threshold", Put(th, "value", Get(orig, "threshold"))) else g;
      Put(Put(g1, "attack", Get(orig, "attack")), "release", Get(orig, "release"))
  }

  /** if (options.threshold !== undefined && gate.threshold is an object)
      gate.threshold.value = options.threshold. */
  function ThresholdStep(g: JsValue, options: JsValue): (r: JsValue)
    requires g.Obj?
    ensures r.Obj?
  {
    var th := Get(g, "threshold");
    if Get(options, "threshold") != Undefined && th.Obj?
    then Put(g, "threshold", Put(th, "value", Get(options, "threshold"))) else g
  }

  /** if (options[key] !== undefined) gate[key] = options[key]. */
  function CopyIfGiven(g: JsValue, options: JsValue, key: string): (r: JsValue)
    requires g.Obj?
    ensures r.Obj?
  {
    if Get(options, key) != Undefined then Put(g, key, Get(options, key)) else g
  }

  /** The gate after optimizeNoiseGate. A null options object makes the first
      read throw, and the catch leaves the gate as it was. */
  function Optimized(g: JsValue, options: JsValue): JsValue
  {
    if !g.Obj? || options.Null? then g
    else
      var g1 := ThresholdStep(g, options);
      var g4 := CopyIfGiven(CopyIfGiven(CopyIfGiven(g1, options, "smoothing"), options, "attack"), options, "release");
      Put(g4, "adaptiveMode", Bool(Truthy(Get(options, "adaptive"))))
  }

  lemma ThresholdStepGet(g: JsValue, options: JsValue, k: string)
    requires g.Obj?
    ensures k != "threshold" ==> Get(ThresholdStep(g, options), k) == Get(g, k)
    ensures Get(g, "threshold").Obj? ==> Get(ThresholdStep(g, options), "threshold").Obj?
  {
    var th := Get(g, "threshold");
    if Get(options, "threshold") != Undefined && th.Obj? {
      GetPut(g, "threshold", Put(th, "value", Get(options, "threshold")), k);
      GetPut(g, "threshold", Put(th, "value", Get(options, "threshold")), "threshold");
    }
  }

  lemma CopyIfGivenGet(g: JsValue, options: JsValue, key: string, k: string)
    requires g.Obj?
    ensures Get(CopyIfGiven(g, options, key), k) ==
              if k == key && Get(options, key) != Undefined then Get(options, key) else Get(g, k)
  {
    GetPut(g, key, Get(options, key), k);
  }

  /** Math.max(0, Math.min(1, intensity || 0.5)); None is undefined. */
  function SafeIntensity(intensity: Option<real>): (s: real)
    ensures 0.0 <= s <= 1.0
    ensures intensity.None? || intensity.value == 0.0 ==> s == 0.5
    ensures intensity.Some? && 0.0 < intensity.value <= 1.0 ==> s == intensity.value
    ensures intensity.Some? && intensity.value < 0.0 ==> s == 0.0
    ensures intensity.Some? && intensity.value > 1.0 ==> s == 1.0
  {
    var i := if intensity.None? || intensity.value == 0.0 then 0.5 else intensity.value;
    MaxR(0.0, MinR(1.0, i))
  }

  /** The threshold handlePeakSignal starts from: threshold.value when that
      is a number, the threshold itself when it is a number, else -30. */
  function CurrentThreshold(g: JsValue): real
  {
    var th := Get(g, "threshold");
    if th.Obj? then (if Get(th, "value").Num? then Get(th, "value").n else -30.0)
    else if th.Num? then th.n
    else -30.0
  }

  function PeakThreshold(current: real, intensity: Option<real>): (p: real)
    ensures p <= -20.0
    ensures current <= -25.0 ==> current <= p <= current + 5.0
  {
    MinR(-20.0, current + SafeIntensity(intensity) * 5.0)
  }

  /** Moving the threshold to t: rampTo when the threshold object has it,
      else its value when it has one, else the threshold itself is
      replaced by the number. */
  function SetThreshold(g: JsValue, t: real, seconds: real): (JsValue, seq<Event>)
  {
    var th := Get(g, "threshold");
    if th.Obj? then
      if Get(th, "rampTo").Func? then (g, [RampTo(t, seconds)])
      else if Has(th, "value") then (Put(g, "threshold", Put(th, "value", Num(t))), [])
      else (Put(g, "threshold", Num(t)), [])
    else if th.Num? then (Put(g, "threshold", Num(t)), [])
    else (g, [])
  }

  /** The gate and the events after handlePeakSignal. */
  function PeakHandled(g: JsValue, intensity: Option<real>): (JsValue, seq<Event>)
  {
    if !g.Obj? || !Truthy(Get(g, "threshold")) then (g, [])
    else
      var current := CurrentThreshold(g);
      var (g1, events) := SetThreshold(g, PeakThreshold(current, intensity), 0.05);
      (g1, events + [RestoreScheduled(current)])
  }

  /** Moving a threshold object that has a value but no rampTo writes the
      value and keeps that shape. */
  lemma SetThresholdValue(g: JsValue, t: real, seconds: real)
    requires g.Obj? && Get(g, "threshold").Obj?
    requires Has(Get(g, "threshold"), "value") && !Get(Get(g, "threshold"), "rampTo").Func?
    ensures var g1 := SetThreshold(g, t, seconds).0;
      && SetThreshold(g, t, seconds).1 == []
      && g1.Obj? && Get(g1, "threshold").Obj?
      && Get(Get(g1, "threshold"), "value") == Num(t) && Has(Get(g1, "threshold"), "value")
      && !Get(Get(g1, "threshold"), "rampTo").Func?
  {
    var th := Get(g, "threshold");
    var th1 := Put(th, "value", Num(t));
    GetPut(th, "value", Num(t), "value");
    GetPut(th, "value", Num(t), "rampTo");
    GetPut(g, "threshold", th1, "threshold");
  }

  /** A gate whose threshold object has a numeric value and no rampTo: the
      peak writes a value of at most -20 and schedules the restore of the
      old value, and running that restore puts the old value back. */
  lemma PeakThenRestore(g: JsValue, intensity: Option<real>)
    requires g.Obj? && Get(g, "threshold").Obj?
    requires Get(Get(g, "threshold"), "value").Num? && !Get(Get(g, "threshold"), "rampTo").Func?
    ensures var c := Get(Get(g, "threshold"), "value").n;
      var peaked := PeakHandled(g, intensity).0;
      && PeakHandled(g, intensity).1 == [RestoreScheduled(c)]
      && Get(Get(peaked, "threshold"), "value") == Num(PeakThreshold(c, intensity))
      && Get(Get(SetThreshold(peaked, c, 0.2).0, "threshold"), "value") == Num(c)
  {
    var th := Get(g, "threshold");
    var c := Get(th, "value").n;
    assert Has(th, "value");
    assert CurrentThreshold(g) == c;
    var p := PeakThreshold(c, intensity);
    SetThresholdValue(g, p, 0.05);
    var peaked := SetThreshold(g, p, 0.05).0;
    PeakHandledSplit(g, intensity);
    assert [] + [RestoreScheduled(c)] == [RestoreScheduled(c)];
    SetThresholdValue(peaked, c, 0.2);
  }

  /** handlePeakSignal on an object with a truthy threshold: the move to the
      peak, then the scheduled restore. */
  lemma PeakHandledSplit(g: JsValue, intensity: Option<real>)
    requires g.Obj? && Truthy(Get(g, "threshold"))
    ensures var c := CurrentThreshold(g);
      var moved := SetThreshold(g, PeakThreshold(c, intensity), 0.05);
      PeakHandled(g, intensity) == (moved.0, moved.1 + [RestoreScheduled(c)])
  {
  }

  /** A gate whose threshold has rampTo: the peak and the restore are both
      ramps, to the peak and back to the value read before it. */
  lemma PeakRampsAndRestores(g: JsValue, intensity: Option<real>)
    requires g.Obj? && Get(g, "threshold").Obj? && Get(Get(g, "threshold"), "rampTo").Func?
    ensures var c := CurrentThreshold(g);
      && PeakHandled(g, intensity) == (g, [RampTo(PeakThreshold(c, intensity), 0.05), RestoreScheduled(c)])
      && SetThreshold(g, c, 0.2) == (g, [RampTo(c, 0.2)])
  {
    assert [RampTo(PeakThreshold(CurrentThreshold(g), intensity), 0.05)] + [RestoreScheduled(CurrentThreshold(g))]
        == [RampTo(PeakThreshold(CurrentThreshold(g), intensity), 0.05), RestoreScheduled(CurrentThreshold(g))];
  }

  /** An unreadable threshold (an object without a numeric value, or a truthy
      non-number) counts as -30. */
  lemma UnreadableThreshold(g: JsValue)
    requires g.Obj? && Truthy(Get(g, "threshold"))
    requires Get(g, "threshold").Obj? ==> !Get(Get(g, "threshold"), "value").Num?
    requires !Get(g, "threshold").Num?
    ensures CurrentThreshold(g) == -30.0
    ensures PeakHandled(g, None).1[|PeakHandled(g, None).1| - 1] == RestoreScheduled(-30.0)
  {
  }

  /** Reading any key of the tuned gate, step by step back to the original. */
  lemma OptimizedGet(g: JsValue, options: JsValue, k: string)
    requires g.Obj? && !options.Null?
    ensures Get(Optimized(g, options), k) ==
              if k == "adaptiveMode" then Bool(Truthy(Get(options, "adaptive")))
              else if (k == "smoothing" || k == "attack" || k == "release") && Get(options, k) != Undefined
              then Get(options, k)
              else Get(ThresholdStep(g, options), k)
  {
    var g1 := ThresholdStep(g, options);
    var g2 := CopyIfGiven(g1, options, "smoothing");
    var g3 := CopyIfGiven(g2, options, "attack");
    var g4 := CopyIfGiven(g3, options, "release");
    GetPut(g4, "adaptiveMode", Bool(Truthy(Get(options, "adaptive"))), k);
    CopyIfGivenGet(g3, options, "release", k);
    CopyIfGivenGet(g2, options, "attack", k);
    CopyIfGivenGet(g1, options, "smoothing", k);
  }

  /** optimizeNoiseGate changes no key but threshold, smoothing, attack,
      release and adaptiveMode; adaptiveMode always becomes !!options.adaptive
      (unless options is null); an option that is undefined leaves its key. */
  lemma OptimizedKeys(g: JsValue, options: JsValue, k: string)
    requires g.Obj? && !options.Null?
    ensures k != "threshold" && k != "smoothing" && k != "attack" && k != "release" && k != "adaptiveMode" ==>
              Get(Optimized(g, options), k) == Get(g, k)
    ensures Get(Optimized(g, options), "adaptiveMode") == Bool(Truthy(Get(options, "adaptive")))
    ensures k == "smoothing" || k == "attack" || k == "release" ==>
              Get(Optimized(g, options), k) == if Get(options, k) != Undefined then Get(options, k) else Get(g, k)
    ensures Get(g, "threshold").Obj? ==> Get(Optimized(g, options), "threshold").Obj?
    ensures Get(Optimized(g, options), "_originalSettings") == Get(g, "_originalSettings")
  {
    OptimizedGet(g, options, k);
    OptimizedGet(g, options, "adaptiveMode");
    OptimizedGet(g, options, "threshold");
    OptimizedGet(g, options, "_originalSettings");
    ThresholdStepGet(g, options, k);
    ThresholdStepGet(g, options, "_originalSettings");
  }

  /** _enhanceGate saves the threshold value, attack and release (each
      falling back to its default when falsy), starts with adaptive mode off,
      and keeps the threshold object. */
  lemma EnhancedSaves(g: JsValue)
    requires g.Obj? && Get(g, "threshold").Obj?
    ensures Get(Enhanced(g), "_originalSettings") == OriginalSettings(g)
    ensures Get(Enhanced(g), "adaptiveMode") == Bool(false)
    ensures Get(Enhanced(g), "threshold") == Get(g, "threshold")
  {
    var g1 := Put(g, "_originalSettings", OriginalSettings(g));
    var g2 := Put(g1, "adaptiveMode", Bool(false));
    var g3 := Put(g2, "adaptThreshold", Func(AdaptThresholdFn, []));
    GetPut(g, "_originalSettings", OriginalSettings(g), "_originalSettings");
    GetPut(g, "_originalSettings", OriginalSettings(g), "threshold");
    GetPut(g1, "adaptiveMode", Bool(false), "_originalSettings");
    GetPut(g1, "adaptiveMode", Bool(false), "adaptiveMode");
    GetPut(g1, "adaptiveMode", Bool(false), "threshold");
    GetPut(g2, "adaptThreshold", Func(AdaptThresholdFn, []), "_originalSettings");
    GetPut(g2, "adaptThreshold", Func(AdaptThresholdFn, []), "adaptiveMode");
    GetPut(g2, "adaptThreshold", Func(AdaptThresholdFn, []), "threshold");
    GetPut(g3, "resetToDefaults", Func(ResetToDefaultsFn, []), "_originalSettings");
    GetPut(g3, "resetToDefaults", Func(ResetToDefaultsFn, []), "adaptiveMode");
    GetPut(g3, "resetToDefaults", Func(ResetToDefaultsFn, []), "threshold");
  }

  /** resetToDefaults on a gate that still carries the saved settings and a
      threshold object puts back the saved threshold value, attack and
      release. */
  lemma ResetRestores(g: JsValue, saved: JsValue)
    requires g.Obj? && Get(g, "threshold").Obj? && Get(g, "_originalSettings") == saved && Truthy(saved)
    ensures GetPath(Reset(g), ["threshold", "value"]) == Get(saved, "threshold")
    ensures Get(Reset(g), "attack") == Get(saved, "attack")
    ensures Get(Reset(g), "release") == Get(saved, "release")
  {
    var th := Get(g, "threshold");
    var th1 := Put(th, "value", Get(saved, "threshold"));
    var g1 := Put(g, "threshold", th1);
    var g2 := Put(g1, "attack", Get(saved, "attack"));
    var g3 := Put(g2, "release", Get(saved, "release"));
    assert Reset(g) == g3;
    GetPut(th, "value", Get(saved, "threshold"), "value");
    GetPut(g, "threshold", th1, "threshold");
    GetPut(g1, "attack", Get(saved, "attack"), "attack");
    GetPut(g1, "attack", Get(saved, "attack"), "threshold");
    GetPut(g2, "release", Get(saved, "release"), "release");
    GetPut(g2, "release", Get(saved, "release"), "attack");
    GetPut(g2, "release", Get(saved, "release"), "threshold");
    GetPathTwo(g3, "threshold", "value");
  }

  /** A two-step path read from an object is two property reads. */
  lemma GetPathTwo(v: JsValue, a: string, b: string)
    requires v.Obj? && Get(v, a).Obj?
    ensures GetPath(v, [a, b]) == Get(Get(v, a), b)
  {
    assert [a, b][0] == a && [a, b][1..] == [b];
    assert [b][0] == b && [b][1..] == [];
    assert GetPath(Get(v, a), [b]) == GetPath(Get(Get(v, a), b), []);
  }

  /** Enhancing a gate, tuning it any number of times and then resetting it
      brings back the threshold value, attack and release that enhancing
      saved. */
  lemma EnhanceOptimizeReset(g: JsValue, options: seq<JsValue>)
    requires g.Obj? && Get(g, "threshold").Obj?
    ensures var tuned := OptimizedAll(Enhanced(g), options);
      var saved := OriginalSettings(g);
      && GetPath(Reset(tuned), ["threshold", "value"]) == Get(saved, "threshold")
      && Get(Reset(tuned), "attack") == Get(saved, "attack")
      && Get(Reset(tuned), "release") == Get(saved, "release")
  {
    EnhancedSaves(g);
    OptimizedAllKeeps(Enhanced(g), options);
    ResetRestores(OptimizedAll(Enhanced(g), options), OriginalSettings(g));
  }

  /** optimizeNoiseGate applied with each options object in turn. */
  function OptimizedAll(g: JsValue, options: seq<JsValue>): JsValue
    decreases |options|
  {
    if options == [] then g else OptimizedAll(Optimized(g, options[0]), options[1..])
  }

  lemma {:induction false} OptimizedAllKeeps(g: JsValue, options: seq<JsValue>)
    requires g.Obj? && Get(g, "threshold").Obj?
    ensures var t := OptimizedAll(g, options);
      t.Obj? && Get(t, "threshold").Obj? && Get(t, "_originalSettings") == Get(g, "_originalSettings")
    decreases |options|
  {
    if options != [] {
      var g1 := Optimized(g, options[0]);
      if !options[0].Null? {
        OptimizedKeys(g, options[0], "");
      }
      OptimizedAllKeeps(g1, options[1..]);
    }
  }

  /** A gate object as the caller holds it: every helper below works on the
      object through this reference. */
  class GateRef {
    var v: JsValue
    var events: seq<Event>

    constructor(gate: JsValue)
      ensures v == gate && events == []
    {
      v := gate;
      events := [];
    }

    /** gate.adaptThreshold(level): off unless adaptive mode is on and the
        threshold has rampTo; then it ramps to the clamped target in 0.2 s. */
    method AdaptThreshold(level: real)
      modifies this
      ensures v == old(v)
      ensures var th := Get(v, "threshold");
        events == old(events) +
          if Truthy(Get(v, "adaptiveMode")) && Truthy(th) && Get(th, "rampTo").Func?
          then [RampTo(AdaptTarget(level), 0.2)] else []
    {
      var th := Get(v, "threshold");
      if !Truthy(Get(v, "adaptiveMode")) || !Truthy(th) || !Get(th, "rampTo").Func? {
        return;
      }
      events := events + [RampTo(AdaptTarget(level), 0.2)];
    }

    /** gate.resetToDefaults(). */
    method ResetToDefaults()
      modifies this
      ensures v == Reset(old(v)) && events == old(events)
    {
      var orig := Get(v, "_originalSettings");
      if !v.Obj? || !Truthy(orig) {
        return;
      }
      var th := Get(v, "threshold");
      if th.Obj? {
        v := Put(v, "threshold", Put(th, "value", Get(orig, "threshold")));
      }
      v := Put(v, "attack", Get(orig, "attack"));
      v := Put(v, "release", Get(orig, "release"));
    }

    /** The callback handlePeakSignal schedules: the threshold goes back to
        the value read before the peak, ramping over 0.2 s when it can. */
    method RestoreThreshold(current: real)
      modifies this
      ensures v == SetThreshold(old(v), current, 0.2).0
      ensures events == old(events) + SetThreshold(old(v), current, 0.2).1
    {
      var g1, ramp := MoveThreshold(v, current, 0.2);
      v, events := g1, events + ramp;
    }
  }

  /** _enhanceGate. */
  method EnhanceGate(gate: GateRef)
    modifies gate
    ensures gate.v == Enhanced(old(gate.v)) && gate.events == old(gate.events)
  {
    var g := gate.v;
    if !g.Obj? {
      return;
    }
    if !Get(g, "threshold").Obj? {
      return;
    }
    var saved := OriginalSettings(g);
    g := Put(g, "_originalSettings", saved);
    g := Put(g, "adaptiveMode", Bool(false));
    g := Put(g, "adaptThreshold", Func(AdaptThresholdFn, []));
    g := Put(g, "resetToDefaults", Func(ResetToDefaultsFn, []));
    gate.v := g;
  }

  /** optimizeNoiseGate. */
  method OptimizeNoiseGate(gate: GateRef, options: JsValue)
    modifies gate
    ensures gate.v == Optimized(old(gate.v), options) && gate.events == old(gate.events)
  {
    var g := gate.v;
    if !g.Obj? || options.Null? {
      return;
    }
    var th := Get(g, "threshold");
    if Get(options, "threshold") != Undefined && th.Obj? {
      g := Put(g, "threshold", Put(th, "value", Get(options, "threshold")));
    }
    assert g == ThresholdStep(old(gate.v), options);
    if Get(options, "smoothing") != Undefined {
      g := Put(g, "smoothing", Get(options, "smoothing"));
    }
    if Get(options, "attack") != Undefined {
      g := Put(g, "attack", Get(options, "attack"));
    }
    if Get(options, "release") != Undefined {
      g := Put(g, "release", Get(options, "release"));
    }
    gate.v := Put(g, "adaptiveMode", Bool(Truthy(Get(options, "adaptive"))));
  }

  /** handlePeakSignal: the threshold is raised to the peak threshold and the
      restore of the value read before it is scheduled. */
  method HandlePeakSignal(gate: GateRef, intensity: Option<real>)
    modifies gate
    ensures gate.v == PeakHandled(old(gate.v), intensity).0
    ensures gate.events == old(gate.events) + PeakHandled(old(gate.v), intensity).1
  {
    var g := gate.v;
    if !g.Obj? {
      assert gate.events + [] == gate.events;
      return;
    }
    var th := Get(g, "threshold");
    if !Truthy(th) {
      assert gate.events + [] == gate.events;
      return;
    }
    var currentThreshold := ReadThreshold(g);
    var peakThreshold := PeakThreshold(currentThreshold, intensity);
    var g1, ramp := MoveThreshold(g, peakThreshold, 0.05);
    PeakHandledSplit(g, intensity);
    var done := (g1, ramp + [RestoreScheduled(currentThreshold)]);
    assert PeakHandled(g, intensity) == done;
    gate.v, gate.events := done.0, gate.events + done.1;
  }

  /** handlePeakSignal's read of the current threshold. */
  method ReadThreshold(g: JsValue) returns (current: real)
    ensures current == CurrentThreshold(g)
  {
    var th := Get(g, "threshold");
    current := -30.0;
    if th.Obj? {
      if Get(th, "value").Num? {
        current := Get(th, "value").n;
      }
    } else if th.Num? {
      current := th.n;
    }
  }

  /** Moving the threshold to t, as both the peak and the scheduled restore
      do it. */
  method MoveThreshold(g: JsValue, t: real, seconds: real) returns (g1: JsValue, ramp: seq<Event>)
    ensures (g1, ramp) == SetThreshold(g, t, seconds)
  {
    var th := Get(g, "threshold");
    g1, ramp := g, [];
    if th.Obj? {
      if Get(th, "rampTo").Func? {
        ramp := [RampTo(t, seconds)];
      } else if Has(th, "value") {
        g1 := Put(g, "threshold", Put(th, "value", Num(t)));
      } else {
        g1 := Put(g, "threshold", Num(t));
      }
    } else if th.Num? {
      g1 := Put(g, "threshold", Num(t));
    }
  }
}
