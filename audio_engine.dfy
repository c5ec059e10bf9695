/** The audio engine: maps a detected object's position and class to a note,
    a duration, an oscillator type and a voice, and gates the notes it plays
    on a beat-interval throttle and on the set of notes still sounding.
    Tone.js objects are represented by the events the engine sends to them. */
module AudioEngine {
  import opened Common
  import opened Assoc
  import opened PatternManager

  /** The timbre table of the engine (audioEngine.js:175-184): the catalog's
      table without its last entry, laptop. */
  function EngineTimbres(): seq<Entry<string>>
  {
    [ Entry("person", "sine"), Entry("bottle", "square"), Entry("cup", "triangle"),
      Entry("book", "sawtooth"), Entry("cell phone", "fmsine"), Entry("keyboard", "fmtriangle"),
      Entry("remote", "amsine"), Entry("mouse", "fatsawtooth") ]
  }

  /** The engine's table lacks laptop, so the engine plays laptops with the
      sine default where the catalog would give pulse. */
  lemma LaptopTimbre()
    ensures EngineTimbres() == BuiltInTimbres()[..8]
    ensures TimbreFor(EngineTimbres(), "laptop") == "sine"
    ensures TimbreFor(BuiltInTimbres(), "laptop") == "pulse"
  {
    EngineTimbresPrefix();
    EngineLacksLaptop();
    CatalogHasLaptop();
    TimbreOfFound(BuiltInTimbres(), "laptop", "pulse");
  }

  lemma TimbreOfFound(timbres: seq<Entry<string>>, cls: string, t: string)
    requires Find(timbres, cls) == Some(t) && t != ""
    ensures TimbreFor(timbres, cls) == t
  {
  }

  lemma EngineTimbresPrefix()
    ensures EngineTimbres() == BuiltInTimbres()[..8]
  {
  }

  lemma EngineLacksLaptop()
    ensures Find(EngineTimbres(), "laptop") == None
  {
    var es := EngineTimbres();
    forall i | 0 <= i < |es|
      ensures es[i].key != "laptop"
    {
      assert es[i].key[0] != 'l';
    }
    assert !HasKey(es, "laptop");
  }

  lemma CatalogHasLaptop()
    ensures Find(BuiltInTimbres(), "laptop") == Some("pulse")
  {
    assert BuiltInTimbres()[8] == Entry("laptop", "pulse");
    assert HasKey(BuiltInTimbres(), "laptop");
    BuiltInTablesWellFormed();
  }

  /** Math.floor(y * (len * 0.8)) capped at the last index. A negative result
      stands for the undefined that indexing a JavaScript array with it gives. */
  function NoteIndex(y: real, len: nat): int
  {
    Min((y * (len as real * 0.8)).Floor, len - 1)
  }

  function RhythmIndex(x: real, len: nat): int
  {
    Min((x * len as real).Floor, len - 1)
  }

  lemma FloorMonotone(a: real, b: real)
    requires a <= b
    ensures a.Floor <= b.Floor
  {
  }

  lemma ScaleNonNegative(y: real, c: real)
    requires c >= 0.0
    ensures y >= 0.0 ==> y * c >= 0.0
    ensures y < 0.0 && c > 0.0 ==> y * c < 0.0
    ensures y <= 1.0 ==> y * c <= c
  {
  }

  lemma ScaleMonotone(a: real, b: real, c: real)
    requires a <= b && c >= 0.0
    ensures a * c <= b * c
  {
    ScaleNonNegative(b - a, c);
    assert (b - a) * c == b * c - a * c;
  }

  /** mapToNote: the note the height y picks in a non-empty scale. Every
      y >= 0 yields a note of the scale; a negative y yields undefined. */
  function MapToNote(notes: seq<Note>, y: real): (r: Option<Note>)
    requires notes != []
    ensures r.Some? <==> y >= 0.0
    ensures r.Some? ==> r.value in notes
  {
    ScaleNonNegative(y, |notes| as real * 0.8);
    At(notes, NoteIndex(y, |notes|))
  }

  /** mapToRhythm: the duration the horizontal position x picks. */
  function MapToRhythm(rhythms: seq<Duration>, x: real): (r: Option<Duration>)
    requires rhythms != []
    ensures r.Some? <==> x >= 0.0
    ensures r.Some? ==> r.value in rhythms
  {
    ScaleNonNegative(x, |rhythms| as real);
    At(rhythms, RhythmIndex(x, |rhythms|))
  }

  /** Higher positions never pick lower indices. */
  lemma {:induction false} NoteIndexMonotone(y1: real, y2: real, len: nat)
    requires y1 <= y2
    ensures NoteIndex(y1, len) <= NoteIndex(y2, len)
  {
    var c := len as real * 0.8;
    ScaleMonotone(y1, y2, c);
    FloorMonotone(y1 * c, y2 * c);
  }

  /** For y <= 1 the index never passes floor(0.8 * len). */
  lemma {:induction false} NoteIndexBound(y: real, len: nat)
    requires y <= 1.0
    ensures NoteIndex(y, len) <= (len as real * 0.8).Floor
  {
    var c := len as real * 0.8;
    ScaleNonNegative(y, c);
    FloorMonotone(y * c, c);
  }

  /** With the major scale, heights up to 1 never reach its two top notes. */
  lemma {:induction false} MajorTopNotesUnreachable(y: real)
    requires y <= 1.0
    ensures MapToNote(BuiltInScales()[0].val, y) != Some("F4")
    ensures MapToNote(BuiltInScales()[0].val, y) != Some("G4")
  {
    var major := BuiltInScales()[0].val;
    NoteIndexBound(y, 12);
    assert (12.0 * 0.8).Floor == 9;
    var i := NoteIndex(y, 12);
    if 0 <= i {
      assert i <= 9;
      assert |major[i]| == 2 && (major[i][1] == '3' || major[i][0] in "CDE");
      NotTopNote(major[i]);
    }
  }

  /** A two-character note in octave 3, or named C, D or E, is neither F4 nor G4. */
  lemma NotTopNote(n: string)
    requires |n| == 2 && (n[1] == '3' || n[0] in "CDE")
    ensures n != "F4" && n != "G4"
  {
  }

  /** The rightmost position picks the last (longest) duration. */
  lemma {:induction false} MapToRhythmAtOne(rhythms: seq<Duration>)
    requires rhythms != []
    ensures MapToRhythm(rhythms, 1.0) == Some(rhythms[|rhythms| - 1])
  {
    assert (1.0 * |rhythms| as real).Floor == |rhythms|;
  }

  lemma {:induction false} RhythmIndexMonotone(x1: real, x2: real, len: nat)
    requires x1 <= x2
    ensures RhythmIndex(x1, len) <= RhythmIndex(x2, len)
  {
    ScaleMonotone(x1, x2, len as real);
    FloorMonotone(x1 * len as real, x2 * len as real);
  }

  /** this.timbres[cls] || 'sine'. */
  function TimbreFor(timbres: seq<Entry<string>>, cls: string): (r: string)
    ensures r != ""
    ensures r == "sine" <==> Find(timbres, cls) in {None, Some(""), Some("sine")}
    ensures r != "sine" ==> Find(timbres, cls) == Some(r)
  {
    match Find(timbres, cls)
    case Some(t) => if t != "" then t else "sine"
    case None => "sine"
  }

  datatype Pattern = Pattern(
    note: Option<Note>,
    rhythm: Option<Duration>,
    timbre: string,
    isRightSide: bool,
    isLeftSide: bool)

  /** createPattern for a normalised position: x picks the duration and the
      zone, y the note, the class the oscillator type. */
  function PatternFor(notes: seq<Note>, rhythms: seq<Duration>, timbres: seq<Entry<string>>, x: real, y: real, cls: string): (p: Pattern)
    requires notes != [] && rhythms != []
    ensures p.isRightSide <==> x > 0.7
    ensures p.isLeftSide <==> x < 0.3
    ensures !(p.isRightSide && p.isLeftSide)
    ensures 0.3 <= x <= 0.7 ==> !p.isRightSide && !p.isLeftSide
    ensures p.note == MapToNote(notes, y) && p.rhythm == MapToRhythm(rhythms, x)
    ensures p.timbre == TimbreFor(timbres, cls)
  {
    Pattern(MapToNote(notes, y), MapToRhythm(rhythms, x), TimbreFor(timbres, cls), x > 0.7, x < 0.3)
  }

  /** The frame size used to normalise a detection: the attached video size,
      or 640x480 when it is absent or zero. */
  function FrameWidth(p: Prediction): (w: real)
    ensures w != 0.0
    ensures p.videoWidth.Some? && p.videoWidth.value != 0.0 ==> w == p.videoWidth.value
  {
    if p.videoWidth.Some? && p.videoWidth.value != 0.0 then p.videoWidth.value else 640.0
  }

  function FrameHeight(p: Prediction): (h: real)
    ensures h != 0.0
    ensures p.videoHeight.Some? && p.videoHeight.value != 0.0 ==> h == p.videoHeight.value
  {
    if p.videoHeight.Some? && p.videoHeight.value != 0.0 then p.videoHeight.value else 480.0
  }

  /** The normalised position of a detection: x across the frame, and y
      inverted so that higher in the frame is higher in pitch. A box corner
      inside a positive frame lands in the unit square. */
  function Normalized(p: Prediction): (xy: (real, real))
    ensures 0.0 < FrameWidth(p) && 0.0 <= p.bbox.x <= FrameWidth(p) ==> 0.0 <= xy.0 <= 1.0
    ensures 0.0 < FrameHeight(p) && 0.0 <= p.bbox.y <= FrameHeight(p) ==> 0.0 <= xy.1 <= 1.0
  {
    var w := FrameWidth(p);
    var h := FrameHeight(p);
    UnitFraction(p.bbox.x, w);
    UnitFraction(p.bbox.y, h);
    (p.bbox.x / w, 1.0 - p.bbox.y / h)
  }

  lemma UnitFraction(a: real, b: real)
    ensures 0.0 < b && 0.0 <= a <= b ==> 0.0 <= a / b <= 1.0
  {
    if 0.0 < b && 0.0 <= a <= b {
      assert a / b * b == a;
    }
  }

  /** A detection whose top edge is inside the frame always picks a note, and
      with the major scale never F4 or G4. */
  lemma {:induction false} DetectionPicksReachableNote(p: Prediction)
    requires 0.0 < FrameHeight(p) && 0.0 <= p.bbox.y <= FrameHeight(p)
    ensures MapToNote(BuiltInScales()[0].val, Normalized(p).1).Some?
    ensures MapToNote(BuiltInScales()[0].val, Normalized(p).1) !in {Some("F4"), Some("G4")}
  {
    MajorTopNotesUnreachable(Normalized(p).1);
  }

  /** The beat interval: seconds per beat, or the infinity that 60 / 0 gives. */
  datatype Interval = Seconds(s: real) | Infinite

  /** now - lastBeatTime < beatInterval * 0.5 */
  predicate TooSoon(now: real, lastBeatTime: real, beatInterval: Interval)
  {
    beatInterval.Infinite? || now - lastBeatTime < beatInterval.s * 0.5
  }

  datatype Voice = MainSynth | BassSynth | GlideSynth

  /** The synth a zone plays on: right zone glide, left zone bass, else main. */
  function VoiceFor(isRightSide: bool, isLeftSide: bool): (v: Voice)
    ensures v == GlideSynth <==> isRightSide
    ensures v == BassSynth <==> !isRightSide && isLeftSide
  {
    if isRightSide then GlideSynth else if isLeftSide then BassSynth else MainSynth
  }

  /** What the engine asks of Tone.js. */
  datatype Event =
    | ToneStarted
    | TransportStarted
    | TransportStopped
    | TransportCancelled
    | TransportBpm(bpm: real)
    | DrumLoopStarted(pattern: DrumPattern)
    | DrumLoopStopped
    | Played(voice: Voice, note: Option<Note>, duration: Duration)
    | VoicesReleased
    | DrumsReleased
    | OscillatorSet(oscType: string)

  /** What start sends: start the audio context and the transport, then loop
      the drum pattern. */
  function StartEvents(pattern: DrumPattern): seq<Event>
  {
    [ToneStarted, TransportStarted, DrumLoopStarted(pattern)]
  }

  /** What stop sends: stop the drum loop if there is one, release every
      voice and drum, then stop and clear the transport. */
  function StopEvents(hadLoop: bool): seq<Event>
  {
    (if hadLoop then [DrumLoopStopped] else []) + [VoicesReleased, DrumsReleased, TransportStopped, TransportCancelled]
  }

  /** The part of the engine playNote changes: the sounding notes, the time
      of the last beat and what has been sent to Tone.js. */
  datatype Voices = Voices(activeNotes: set<Option<Note>>, lastBeatTime: real, events: seq<Event>)

  /** playNote over those fields: nothing while stopped or within half a
      beat of the last beat; otherwise the beat time moves to now, and the
      note plays unless it is already sounding. */
  function PlayNoteStep(isPlaying: bool, beatInterval: Interval, v: Voices, note: Option<Note>,
                        duration: Option<Duration>, isRightSide: bool, isLeftSide: bool, now: real): (bool, Voices)
  {
    if !isPlaying || TooSoon(now, v.lastBeatTime, beatInterval) then (false, v)
    else if note in v.activeNotes then (false, v.(lastBeatTime := now))
    else (true, Voices(v.activeNotes + {note}, now,
                       v.events + [Played(VoiceFor(isRightSide, isLeftSide), note,
                                          if duration.Some? then duration.value else "8n")]))
  }

  /** Two playNote calls in a row: once the first gets past the throttle
      (even when its note is a duplicate and does not play), a second call
      less than half a beat later plays nothing and changes nothing, so two
      notes that both play are at least half a beat apart. */
  lemma ThrottleSpacing(isPlaying: bool, beatInterval: Interval, v: Voices,
                        note1: Option<Note>, duration1: Option<Duration>, right1: bool, left1: bool, t1: real,
                        note2: Option<Note>, duration2: Option<Duration>, right2: bool, left2: bool, t2: real)
    requires isPlaying && !TooSoon(t1, v.lastBeatTime, beatInterval)
    ensures var v1 := PlayNoteStep(isPlaying, beatInterval, v, note1, duration1, right1, left1, t1).1;
            && v1.lastBeatTime == t1
            && (beatInterval.Seconds? && t2 < t1 + beatInterval.s * 0.5 ==>
                  PlayNoteStep(isPlaying, beatInterval, v1, note2, duration2, right2, left2, t2) == (false, v1))
    ensures PlayNoteStep(isPlaying, beatInterval, v, note1, duration1, right1, left1, t1).0
            && PlayNoteStep(isPlaying, beatInterval, PlayNoteStep(isPlaying, beatInterval, v, note1, duration1, right1, left1, t1).1,
                            note2, duration2, right2, left2, t2).0
            ==> beatInterval.Seconds? && t2 - t1 >= beatInterval.s * 0.5
  {
  }

  class Engine {
    /** The engine's copies of the catalog tables, never changed after
        construction. */
    const scales: seq<Entry<seq<Note>>>
    const rhythmPatterns: seq<Entry<seq<Duration>>>
    const drumPatterns: seq<Entry<DrumPattern>>
    const timbres: seq<Entry<string>>
    var isPlaying: bool
    /** The drum loop playing, by the pattern it loops. */
    var drumLoop: Option<DrumPattern>
    var activeNotes: set<Option<Note>>
    var lastBeatTime: real
    var beatInterval: Interval
    var currentScale: string
    var currentRhythmPattern: string
    var oscillatorType: string
    var reverbWet: real
    var delayWet: real
    var gateThreshold: real
    var events: seq<Event>

    /** The selected scale and rhythm pattern are entries of the tables, so
        mapToNote and mapToRhythm always index non-empty lists, and the
        rhythm pattern names a drum pattern. */
    ghost predicate Valid()
      reads this
    {
      TablesValid()
      && HasKey(scales, currentScale)
      && HasKey(rhythmPatterns, currentRhythmPattern)
      && (!isPlaying ==> activeNotes == {} && drumLoop.None?)
    }

    /** The tables never change, so this part of Valid holds for good. */
    ghost predicate TablesValid()
    {
      AllNonEmpty(scales) && AllNonEmpty(rhythmPatterns)
      && (forall n :: HasKey(rhythmPatterns, n) ==> HasKey(drumPatterns, n))
    }

    constructor()
      ensures Valid()
      ensures scales == BuiltInScales() && rhythmPatterns == BuiltInRhythms()
      ensures drumPatterns == BuiltInDrumPatterns() && timbres == EngineTimbres()
      ensures !isPlaying && drumLoop.None? && activeNotes == {}
      ensures lastBeatTime == 0.0 && beatInterval == Seconds(0.5)
      ensures currentScale == "major" && currentRhythmPattern == "basic"
      ensures oscillatorType == "sine" && events == [TransportBpm(120.0)]
      ensures reverbWet == 0.2 && delayWet == 0.1 && gateThreshold == -50.0
    {
      scales := BuiltInScales();
      rhythmPatterns := BuiltInRhythms();
      drumPatterns := BuiltInDrumPatterns();
      timbres := EngineTimbres();
      isPlaying := false;
      drumLoop := None;
      activeNotes := {};
      lastBeatTime := 0.0;
      beatInterval := Seconds(0.5);
      currentScale := "major";
      currentRhythmPattern := "basic";
      oscillatorType := "sine";
      reverbWet := 0.2;
      delayWet := 0.1;
      gateThreshold := -50.0;
      events := [TransportBpm(120.0)];
      BuiltInTablesWellFormed();
      RhythmsHaveDrums();
      assert BuiltInScales()[0].key == "major";
      assert BuiltInRhythms()[0].key == "basic";
    }

    function Notes(): (notes: seq<Note>)
      requires Valid()
      reads this
      ensures notes != [] && Find(scales, currentScale) == Some(notes)
    {
      var notes := Find(scales, currentScale).value;
      assert Entry(currentScale, notes) in scales;
      notes
    }

    function Rhythms(): (rhythms: seq<Duration>)
      requires Valid()
      reads this
      ensures rhythms != [] && Find(rhythmPatterns, currentRhythmPattern) == Some(rhythms)
    {
      var rhythms := Find(rhythmPatterns, currentRhythmPattern).value;
      assert Entry(currentRhythmPattern, rhythms) in rhythmPatterns;
      rhythms
    }

    /** startDrumLoop: stops the loop playing, if any, and loops the drum
        pattern of the current rhythm pattern. */
    method StartDrumLoop()
      requires Valid() && isPlaying
      modifies this
      ensures Valid() && isPlaying
      ensures drumLoop == Find(drumPatterns, currentRhythmPattern)
      ensures events == old(events) + (if old(drumLoop).Some? then [DrumLoopStopped] else [])
                                    + [DrumLoopStarted(drumLoop.value)]
      ensures activeNotes == old(activeNotes) && lastBeatTime == old(lastBeatTime)
      ensures beatInterval == old(beatInterval) && currentScale == old(currentScale)
      ensures currentRhythmPattern == old(currentRhythmPattern) && oscillatorType == old(oscillatorType)
      ensures reverbWet == old(reverbWet) && delayWet == old(delayWet) && gateThreshold == old(gateThreshold)
    {
      if drumLoop.Some? {
        events := events + [DrumLoopStopped];
        drumLoop := None;
      }
      var pattern := Find(drumPatterns, currentRhythmPattern).value;
      drumLoop := Some(pattern);
      events := events + [DrumLoopStarted(pattern)];
    }

    /** start: a no-op while playing; otherwise resets the effect levels,
        starts the transport and the drum loop. */
    method Start()
      requires Valid()
      modifies this
      ensures Valid() && isPlaying
      ensures old(isPlaying) ==> events == old(events) && drumLoop == old(drumLoop)
                                 && reverbWet == old(reverbWet) && delayWet == old(delayWet)
                                 && gateThreshold == old(gateThreshold)
      ensures !old(isPlaying) ==>
        reverbWet == 0.2 && delayWet == 0.1 && gateThreshold == -50.0
        && drumLoop == Find(drumPatterns, currentRhythmPattern)
        && events == old(events) + StartEvents(drumLoop.value)
      ensures activeNotes == old(activeNotes) && lastBeatTime == old(lastBeatTime)
      ensures beatInterval == old(beatInterval) && currentScale == old(currentScale)
      ensures currentRhythmPattern == old(currentRhythmPattern) && oscillatorType == old(oscillatorType)
    {
      if !isPlaying {
        reverbWet, delayWet, gateThreshold := 0.2, 0.1, -50.0;
        events, isPlaying := events + [ToneStarted, TransportStarted], true;
        StartDrumLoop();
        assert events == old(events) + [ToneStarted, TransportStarted] + [DrumLoopStarted(drumLoop.value)];
      }
    }

    /** stop: a no-op while stopped; otherwise stops the drum loop, releases
        every voice, stops and clears the transport, silences the effects,
        closes the gate and forgets the sounding notes. */
    method Stop()
      requires Valid()
      modifies this
      ensures Valid() && !isPlaying && activeNotes == {} && drumLoop.None?
      ensures old(isPlaying) ==>
        reverbWet == 0.0 && delayWet == 0.0 && gateThreshold == -100.0
        && events == old(events) + StopEvents(old(drumLoop).Some?)
      ensures !old(isPlaying) ==>
        events == old(events) && reverbWet == old(reverbWet) && delayWet == old(delayWet)
        && gateThreshold == old(gateThreshold)
      ensures lastBeatTime == old(lastBeatTime) && beatInterval == old(beatInterval)
      ensures currentScale == old(currentScale) && currentRhythmPattern == old(currentRhythmPattern)
      ensures oscillatorType == old(oscillatorType)
    {
      if isPlaying {
        events := events + StopEvents(drumLoop.Some?);
        drumLoop, activeNotes, isPlaying := None, {}, false;
        reverbWet, delayWet, gateThreshold := 0.0, 0.0, -100.0;
      }
    }

    /** playNote at transport time now. A missing duration defaults to 8n.
        Returns whether the note was sent to a synth. */
    method PlayNote(note: Option<Note>, duration: Option<Duration>, isRightSide: bool, isLeftSide: bool, now: real)
      returns (played: bool)
      requires Valid()
      modifies this
      ensures Valid()
      ensures (played, Voices(activeNotes, lastBeatTime, events))
              == PlayNoteStep(old(isPlaying), beatInterval, Voices(old(activeNotes), old(lastBeatTime), old(events)),
                              note, duration, isRightSide, isLeftSide, now)
      ensures played <==> old(isPlaying) && !TooSoon(now, old(lastBeatTime), beatInterval)
                          && note !in old(activeNotes)
      ensures lastBeatTime == if old(isPlaying) && !TooSoon(now, old(lastBeatTime), beatInterval)
                              then now else old(lastBeatTime)
      ensures activeNotes == if played then old(activeNotes) + {note} else old(activeNotes)
      ensures events == old(events) + if played
        then [Played(VoiceFor(isRightSide, isLeftSide), note, if duration.Some? then duration.value else "8n")]
        else []
      ensures isPlaying == old(isPlaying) && drumLoop == old(drumLoop) && beatInterval == old(beatInterval)
      ensures currentScale == old(currentScale) && currentRhythmPattern == old(currentRhythmPattern)
      ensures oscillatorType == old(oscillatorType) && reverbWet == old(reverbWet)
      ensures delayWet == old(delayWet) && gateThreshold == old(gateThreshold)
    {
      if !isPlaying {
        return false;
      }
      if TooSoon(now, lastBeatTime, beatInterval) {
        return false;
      }
      lastBeatTime := now;
      if note in activeNotes {
        return false;
      }
      activeNotes := activeNotes + {note};
      var voice := VoiceFor(isRightSide, isLeftSide);
      var d := if duration.Some? then duration.value else "8n";
      events := events + [Played(voice, note, d)];
      return true;
    }

    /** The timer set by playNote fires: the note may sound again. */
    method NoteEnded(note: Option<Note>)
      requires Valid()
      modifies this
      ensures Valid()
      ensures activeNotes == old(activeNotes) - {note}
      ensures isPlaying == old(isPlaying) && drumLoop == old(drumLoop) && events == old(events)
      ensures lastBeatTime == old(lastBeatTime) && beatInterval == old(beatInterval)
      ensures currentScale == old(currentScale) && currentRhythmPattern == old(currentRhythmPattern)
      ensures oscillatorType == old(oscillatorType) && reverbWet == old(reverbWet)
      ensures delayWet == old(delayWet) && gateThreshold == old(gateThreshold)
    {
      activeNotes := activeNotes - {note};
    }

    /** setTimbre: picks the oscillator type for the class and sets it on the
        main synth. */
    method SetTimbre(objectClass: string) returns (oscType: string)
      requires Valid()
      modifies this
      ensures Valid()
      ensures oscType == TimbreFor(timbres, objectClass) && oscillatorType == oscType
      ensures events == old(events) + [OscillatorSet(oscType)]
      ensures isPlaying == old(isPlaying) && drumLoop == old(drumLoop) && activeNotes == old(activeNotes)
      ensures lastBeatTime == old(lastBeatTime) && beatInterval == old(beatInterval)
      ensures currentScale == old(currentScale) && currentRhythmPattern == old(currentRhythmPattern)
      ensures reverbWet == old(reverbWet) && delayWet == old(delayWet) && gateThreshold == old(gateThreshold)
    {
      oscType := TimbreFor(timbres, objectClass);
      oscillatorType := oscType;
      events := events + [OscillatorSet(oscType)];
    }

    /** setBPM: seconds per beat for the throttle; 0 gives an infinite
        interval, which holds every later note back. */
    method SetBPM(bpm: real)
      requires Valid()
      modifies this
      ensures Valid()
      ensures beatInterval == if bpm == 0.0 then Infinite else Seconds(60.0 / bpm)
      ensures events == old(events) + [TransportBpm(bpm)]
      ensures isPlaying == old(isPlaying) && drumLoop == old(drumLoop) && activeNotes == old(activeNotes)
      ensures lastBeatTime == old(lastBeatTime) && oscillatorType == old(oscillatorType)
      ensures currentScale == old(currentScale) && currentRhythmPattern == old(currentRhythmPattern)
      ensures reverbWet == old(reverbWet) && delayWet == old(delayWet) && gateThreshold == old(gateThreshold)
    {
      beatInterval := if bpm == 0.0 then Infinite else Seconds(60.0 / bpm);
      events := events + [TransportBpm(bpm)];
    }

    /** setScale: selects a known scale; an unknown name changes nothing. */
    method SetScale(scaleName: string) returns (ok: bool)
      requires Valid()
      modifies this
      ensures Valid()
      ensures ok <==> HasKey(scales, scaleName)
      ensures currentScale == if ok then scaleName else old(currentScale)
      ensures isPlaying == old(isPlaying) && drumLoop == old(drumLoop) && activeNotes == old(activeNotes)
      ensures lastBeatTime == old(lastBeatTime) && beatInterval == old(beatInterval) && events == old(events)
      ensures currentRhythmPattern == old(currentRhythmPattern) && oscillatorType == old(oscillatorType)
      ensures reverbWet == old(reverbWet) && delayWet == old(delayWet) && gateThreshold == old(gateThreshold)
    {
      if Find(scales, scaleName).Some? {
        currentScale := scaleName;
        return true;
      }
      return false;
    }

    /** setRhythmPattern: selects a known pattern and, while playing,
        restarts the drum loop on it; an unknown name changes nothing. */
    method SetRhythmPattern(patternName: string) returns (ok: bool)
      requires Valid()
      modifies this
      ensures Valid()
      ensures ok <==> HasKey(rhythmPatterns, patternName)
      ensures currentRhythmPattern == if ok then patternName else old(currentRhythmPattern)
      ensures ok && isPlaying ==> drumLoop == Find(drumPatterns, patternName)
      ensures !ok || !isPlaying ==> drumLoop == old(drumLoop) && events == old(events)
      ensures isPlaying == old(isPlaying) && activeNotes == old(activeNotes)
      ensures lastBeatTime == old(lastBeatTime) && beatInterval == old(beatInterval)
      ensures currentScale == old(currentScale) && oscillatorType == old(oscillatorType)
      ensures reverbWet == old(reverbWet) && delayWet == old(delayWet) && gateThreshold == old(gateThreshold)
    {
      if Find(rhythmPatterns, patternName).Some? {
        currentRhythmPattern := patternName;
        if isPlaying {
          StartDrumLoop();
        }
        return true;
      }
      return false;
    }

    /** createPattern: the pattern for a normalised position, which also sets
        the main synth's oscillator. */
    method CreatePattern(x: real, y: real, objectClass: string) returns (p: Pattern)
      requires Valid()
      modifies this
      ensures Valid()
      ensures p == PatternFor(Notes(), Rhythms(), timbres, x, y, objectClass)
      ensures oscillatorType == p.timbre && events == old(events) + [OscillatorSet(p.timbre)]
      ensures isPlaying == old(isPlaying) && drumLoop == old(drumLoop) && activeNotes == old(activeNotes)
      ensures lastBeatTime == old(lastBeatTime) && beatInterval == old(beatInterval)
      ensures currentScale == old(currentScale) && currentRhythmPattern == old(currentRhythmPattern)
      ensures reverbWet == old(reverbWet) && delayWet == old(delayWet) && gateThreshold == old(gateThreshold)
    {
      var note := MapToNote(Notes(), y);
      var rhythm := MapToRhythm(Rhythms(), x);
      var timbre := SetTimbre(objectClass);
      p := Pattern(note, rhythm, timbre, x > 0.7, x < 0.3);
    }

    /** generateMusic: nothing for no detections or while stopped; otherwise
        the first detection's pattern, whose note is offered to playNote. */
    method GenerateMusic(predictions: seq<Prediction>, now: real) returns (r: Option<Pattern>)
      requires Valid()
      modifies this
      ensures Valid()
      ensures r.None? <==> predictions == [] || !old(isPlaying)
      ensures r.None? ==> events == old(events) && activeNotes == old(activeNotes)
                          && lastBeatTime == old(lastBeatTime) && oscillatorType == old(oscillatorType)
      ensures r.Some? ==> r.value == PatternFor(Notes(), Rhythms(), timbres,
                                                Normalized(predictions[0]).0, Normalized(predictions[0]).1,
                                                predictions[0].cls)
      ensures r.Some? ==> oscillatorType == r.value.timbre
      ensures r.Some? ==>
                exists played :: (played, Voices(activeNotes, lastBeatTime, events))
                  == PlayNoteStep(isPlaying, beatInterval,
                                  Voices(old(activeNotes), old(lastBeatTime), old(events) + [OscillatorSet(r.value.timbre)]),
                                  r.value.note, r.value.rhythm, r.value.isRightSide, r.value.isLeftSide, now)
      ensures isPlaying == old(isPlaying) && drumLoop == old(drumLoop) && beatInterval == old(beatInterval)
      ensures currentScale == old(currentScale) && currentRhythmPattern == old(currentRhythmPattern)
      ensures reverbWet == old(reverbWet) && delayWet == old(delayWet) && gateThreshold == old(gateThreshold)
    {
      if |predictions| == 0 || !isPlaying {
        return None;
      }
      var xy := Normalized(predictions[0]);
      var p := CreatePattern(xy.0, xy.1, predictions[0].cls);
      var _ := PlayNote(p.note, p.rhythm, p.isRightSide, p.isLeftSide, now);
      return Some(p);
    }
  }

  /** Every rhythm pattern has a drum pattern of the same name, so the drum
      loop always finds its grids. */
  lemma RhythmsHaveDrums()
    ensures forall n :: HasKey(BuiltInRhythms(), n) ==> HasKey(BuiltInDrumPatterns(), n)
  {
    forall n | HasKey(BuiltInRhythms(), n)
      ensures HasKey(BuiltInDrumPatterns(), n)
    {
      var i :| 0 <= i < |BuiltInRhythms()| && BuiltInRhythms()[i].key == n;
      assert BuiltInDrumPatterns()[i].key == n;
    }
  }
}
