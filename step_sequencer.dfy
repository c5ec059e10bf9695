/** The step sequencer: a sixteen-step metronome whose ticks run the
    callbacks registered for the current step, and a registry of drum and
    melodic sequences that it starts, stops and disposes together. Tone.js
    loops and sequences are represented by the events sent to them. */
module StepSequencer {
  import opened Common
  import opened Assoc
  import opened PatternManager

  const Steps := 16

  /** A note of a melodic pattern: None stands for a falsy entry (null,
      undefined, an empty string). */
  type NoteValue = Option<string>

  /** One drum voice's Tone.Sequence inside a drum group. */
  datatype Part = Part(drum: string, steps: nat, isStarted: bool)

  datatype Sequence =
    /** The object createDrumSequence registers: its parts, and the
        isStarted flag start/stop write on the group itself. */
    | DrumGroup(parts: seq<Part>, isStarted: bool)
    /** The Tone.Sequence createMelodicSequence registers, with the note
        index its callback advances. */
    | Melodic(synth: Handle, notes: seq<NoteValue>, rhythm: seq<Duration>, length: nat,
              noteIndex: nat, isStarted: bool, subdivision: string)

  datatype Event =
    | MetronomeStarted
    | MetronomeStopped
    | MetronomeInterval(subdivision: string)
    | CallbackRan(callbackId: string, step: int)
    | StepEmitted(step: int)
    | SequenceStarted(id: string)
    | SequenceStopped(id: string)
    | SequenceDisposed(id: string)
    | PartStarted(drum: string)
    | NotePlayed(synth: Handle, note: string, duration: Option<Duration>)

  function SetParts(parts: seq<Part>, b: bool): (r: seq<Part>)
    ensures |r| == |parts|
    ensures forall i :: 0 <= i < |r| ==> r[i] == parts[i].(isStarted := b)
  {
    seq(|parts|, i requires 0 <= i < |parts| => parts[i].(isStarted := b))
  }

  /** sequence.start('+0.1'); sequence.isStarted = true. A group's start
      starts every part. */
  function Started(s: Sequence): Sequence
  {
    match s
    case DrumGroup(parts, _) => DrumGroup(SetParts(parts, true), true)
    case Melodic(_, _, _, _, _, _, _) => s.(isStarted := true)
  }

  /** sequence.stop(); sequence.isStarted = false. */
  function Stopped(s: Sequence): Sequence
  {
    match s
    case DrumGroup(parts, _) => DrumGroup(SetParts(parts, false), false)
    case Melodic(_, _, _, _, _, _, _) => s.(isStarted := false)
  }

  /** A sequence sounds exactly while the sequencer runs: every Tone sequence
      in it is started iff running, and a group is never marked started while
      the sequencer is stopped. */
  predicate InStep(s: Sequence, running: bool)
  {
    match s
    case DrumGroup(parts, started) =>
      (forall i :: 0 <= i < |parts| ==> parts[i].isStarted == running) && (started ==> running)
    case Melodic(_, _, _, _, _, started, _) => started == running
  }

  /** What start's forEach does to one sequence: start it unless it is
      already started. */
  function StartOne(e: Entry<Sequence>): Entry<Sequence>
  {
    if e.val.isStarted then e else Entry(e.key, Started(e.val))
  }

  function StartLogOne(e: Entry<Sequence>): seq<Event>
  {
    if e.val.isStarted then [] else [SequenceStarted(e.key)]
  }

  /** Every registered sequence is in step with the sequencer. */
  predicate AllInStep(es: seq<Entry<Sequence>>, running: bool)
  {
    forall i :: 0 <= i < |es| ==> InStep(es[i].val, running)
  }

  /** The sequences after start's forEach, and what it sends. */
  function StartAll(es: seq<Entry<Sequence>>): seq<Entry<Sequence>>
  {
    if es == [] then []
    else
      var n := |es| - 1;
      StartAll(es[..n]) + [StartOne(es[n])]
  }

  function StartLog(es: seq<Entry<Sequence>>): seq<Event>
  {
    if es == [] then [] else StartLog(es[..|es| - 1]) + StartLogOne(es[|es| - 1])
  }

  function StopAllSeqs(es: seq<Entry<Sequence>>): seq<Entry<Sequence>>
  {
    if es == [] then []
    else
      var n := |es| - 1;
      StopAllSeqs(es[..n]) + [Entry(es[n].key, Stopped(es[n].val))]
  }

  function StopLog(es: seq<Entry<Sequence>>): seq<Event>
  {
    if es == [] then [] else StopLog(es[..|es| - 1]) + [SequenceStopped(es[|es| - 1].key)]
  }

  function DisposeLog(es: seq<Entry<Sequence>>): seq<Event>
  {
    if es == [] then [] else DisposeLog(es[..|es| - 1]) + [SequenceDisposed(es[|es| - 1].key)]
  }

  /** The sequences after setSubdivision: melodic sequences (the ones with a
      subdivision property) take the new value, groups are unchanged. */
  function WithSubdivision(es: seq<Entry<Sequence>>, sub: string): seq<Entry<Sequence>>
  {
    if es == [] then []
    else
      var n := |es| - 1;
      WithSubdivision(es[..n], sub) + [SubdivideOne(es[n], sub)]
  }

  function SubdivideOne(e: Entry<Sequence>, sub: string): Entry<Sequence>
  {
    if e.val.Melodic? then Entry(e.key, e.val.(subdivision := sub)) else e
  }

  /** start's forEach, one sequence further. */
  lemma StartAllStep(es: seq<Entry<Sequence>>, i: nat)
    requires i < |es|
    ensures StartAll(es[..i + 1]) == StartAll(es[..i]) + [StartOne(es[i])]
    ensures StartLog(es[..i + 1]) == StartLog(es[..i]) + StartLogOne(es[i])
  {
    assert es[..i + 1][..i] == es[..i];
  }

  lemma SubdivideStep(es: seq<Entry<Sequence>>, sub: string, i: nat)
    requires i < |es|
    ensures WithSubdivision(es[..i + 1], sub) == WithSubdivision(es[..i], sub) + [SubdivideOne(es[i], sub)]
  {
    assert es[..i + 1][..i] == es[..i];
  }

  /** start's forEach treats each sequence on its own. */
  lemma {:induction false} StartAllAt(es: seq<Entry<Sequence>>)
    ensures |StartAll(es)| == |es|
    ensures forall i :: 0 <= i < |es| ==> StartAll(es)[i] == StartOne(es[i])
  {
    if es != [] {
      var init := es[..|es| - 1];
      StartAllAt(init);
      var r := StartAll(es);
      forall i | 0 <= i < |es|
        ensures r[i] == StartOne(es[i])
      {
        if i < |init| {
          assert es[i] == init[i];
        }
      }
    }
  }

  /** With nothing started yet, start logs every sequence in order. */
  lemma {:induction false} StartLogAll(es: seq<Entry<Sequence>>)
    requires forall i :: 0 <= i < |es| ==> !es[i].val.isStarted
    ensures StartLog(es) == seq(|es|, i requires 0 <= i < |es| => SequenceStarted(es[i].key))
  {
    if es != [] {
      var init := es[..|es| - 1];
      StartLogAll(init);
      var want := seq(|es|, i requires 0 <= i < |es| => SequenceStarted(es[i].key));
      assert want == seq(|init|, i requires 0 <= i < |init| => SequenceStarted(init[i].key))
                     + [SequenceStarted(es[|es| - 1].key)];
    }
  }

  /** setSubdivision's forEach treats each sequence on its own. */
  lemma {:induction false} WithSubdivisionAt(es: seq<Entry<Sequence>>, sub: string)
    ensures |WithSubdivision(es, sub)| == |es|
    ensures forall i :: 0 <= i < |es| ==> WithSubdivision(es, sub)[i] == SubdivideOne(es[i], sub)
  {
    if es != [] {
      var init := es[..|es| - 1];
      WithSubdivisionAt(init, sub);
      var r := WithSubdivision(es, sub);
      forall i | 0 <= i < |es|
        ensures r[i] == SubdivideOne(es[i], sub)
      {
        if i < |init| {
          assert es[i] == init[i];
        }
      }
    }
  }

  /** start leaves every sequence started, in registry order. */
  lemma {:induction false} StartAllStarts(es: seq<Entry<Sequence>>)
    requires AllInStep(es, false)
    ensures |StartAll(es)| == |es|
    ensures forall i :: 0 <= i < |es| ==> StartAll(es)[i] == Entry(es[i].key, Started(es[i].val))
    ensures AllInStep(StartAll(es), true)
    ensures StartLog(es) == seq(|es|, i requires 0 <= i < |es| => SequenceStarted(es[i].key))
  {
    StartAllAt(es);
    forall i | 0 <= i < |es|
      ensures !es[i].val.isStarted
    {
      assert InStep(es[i].val, false);
    }
    StartLogAll(es);
  }

  /** stop leaves every sequence stopped. */
  lemma {:induction false} StopAllStops(es: seq<Entry<Sequence>>)
    ensures |StopAllSeqs(es)| == |es|
    ensures forall i :: 0 <= i < |es| ==> StopAllSeqs(es)[i] == Entry(es[i].key, Stopped(es[i].val))
    ensures AllInStep(StopAllSeqs(es), false)
  {
    if es != [] {
      var init := es[..|es| - 1];
      StopAllStops(init);
      var r := StopAllSeqs(es);
      forall i | 0 <= i < |es|
        ensures r[i] == Entry(es[i].key, Stopped(es[i].val))
      {
        if i < |init| {
          assert es[i] == init[i];
        }
      }
      forall i | 0 <= i < |r|
        ensures InStep(r[i].val, false)
      {
        StoppedInStep(es[i].val);
      }
    }
  }

  lemma StoppedInStep(s: Sequence)
    ensures InStep(Stopped(s), false)
  {
  }

  lemma {:induction false} WithSubdivisionKeepsState(es: seq<Entry<Sequence>>, sub: string, running: bool)
    requires AllInStep(es, running)
    ensures |WithSubdivision(es, sub)| == |es|
    ensures AllInStep(WithSubdivision(es, sub), running)
    ensures forall i :: 0 <= i < |es| && es[i].val.Melodic? ==>
      WithSubdivision(es, sub)[i].val == es[i].val.(subdivision := sub)
    ensures forall i :: 0 <= i < |es| && es[i].val.DrumGroup? ==> WithSubdivision(es, sub)[i] == es[i]
  {
    WithSubdivisionAt(es, sub);
  }

  /** setSubdivision keeps the registry well formed. */
  lemma SubdivisionKeepsValid(es: seq<Entry<Sequence>>, sub: string, running: bool)
    requires Distinct(es) && AllInStep(es, running)
    ensures Distinct(WithSubdivision(es, sub))
    ensures AllInStep(WithSubdivision(es, sub), running)
  {
    WithSubdivisionKeepsState(es, sub, running);
    WithSubdivisionAt(es, sub);
    var r := WithSubdivision(es, sub);
    forall i | 0 <= i < |r|
      ensures r[i].key == es[i].key
    {
      assert r[i] == SubdivideOne(es[i], sub);
    }
    KeysDistinct(es, r);
  }

  /** The callbacks registered for a step, in registration order. */
  function CallbacksAt(m: map<int, seq<Entry<Handle>>>, step: int): seq<Entry<Handle>>
  {
    if step in m then m[step] else []
  }

  /** onStep's update of the callback table. */
  function OnStepMap(m: map<int, seq<Entry<Handle>>>, step: int, id: string, callback: Handle): map<int, seq<Entry<Handle>>>
  {
    m[step := Assign(CallbacksAt(m, step), id, callback)]
  }

  /** offStep's update: an unknown step changes nothing. */
  function OffStepMap(m: map<int, seq<Entry<Handle>>>, step: int, id: string): map<int, seq<Entry<Handle>>>
  {
    if step in m then m[step := Remove(m[step], id)] else m
  }

  /** offStep with the id onStep returned removes exactly that callback:
      every step, this one included, runs the callbacks it ran before. */
  lemma OffStepUndoesOnStep(m: map<int, seq<Entry<Handle>>>, step: int, id: string, callback: Handle, s: int)
    requires !HasKey(CallbacksAt(m, step), id)
    ensures CallbacksAt(OffStepMap(OnStepMap(m, step, id, callback), step, id), s) == CallbacksAt(m, s)
  {
    if s == step {
      RemoveAssignFresh(CallbacksAt(m, step), id, callback);
    }
  }

  /** Between onStep and offStep, the step runs the new callback, and the
      callbacks registered under other ids are untouched. */
  lemma OnStepRegisters(m: map<int, seq<Entry<Handle>>>, step: int, id: string, callback: Handle, id': string)
    ensures Find(CallbacksAt(OnStepMap(m, step, id, callback), step), id') ==
            if id' == id then Some(callback) else Find(CallbacksAt(m, step), id')
    ensures Find(CallbacksAt(OffStepMap(m, step, id), step), id') ==
            if id' == id && step in m then None else Find(CallbacksAt(m, step), id')
  {
    FindAssign(CallbacksAt(m, step), id, callback, id');
    if step in m {
      FindRemove(m[step], id, id');
    }
  }

  function CallbackRuns(cbs: seq<Entry<Handle>>, step: int): (r: seq<Event>)
    ensures |r| == |cbs|
  {
    seq(|cbs|, i requires 0 <= i < |cbs| => CallbackRan(cbs[i].key, step))
  }

  /** The step after a tick: (currentStep + 1) % 16 with JavaScript's %. */
  function NextStep(step: int): (r: int)
    ensures step >= -1 ==> 0 <= r < Steps
    ensures step >= -1 ==> r == (step + 1) % Steps
  {
    JsRem(step + 1, Steps)
  }

  /** The step after n ticks. */
  function StepAfter(step: int, n: nat): int
    decreases n
  {
    if n == 0 then step else StepAfter(NextStep(step), n - 1)
  }

  /** From any step in range the counter is cyclic with period 16. */
  lemma {:induction false} StepAfterCycles(step: int, n: nat)
    requires 0 <= step < Steps
    ensures StepAfter(step, n) == (step + n) % Steps
    decreases n
  {
    if n > 0 {
      StepAfterCycles(NextStep(step), n - 1);
      assert (NextStep(step) + (n - 1)) % Steps == (step + n) % Steps by {
        assert NextStep(step) == (step + 1) % Steps;
        ModAddLeft(step + 1, n - 1, Steps);
      }
    }
  }

  /** A start below -1: JavaScript's % keeps the counter at or below 0, so
      the next tick fires a step outside [0, Steps) unless start + 1 is a
      multiple of Steps; from -Steps - 1 < start < -1 the tick simply moves
      to start + 1 (start(-5) fires step -4). */
  lemma NegativeStartLeavesRange(start: int)
    requires start < -1
    ensures -Steps < NextStep(start) <= 0
    ensures (0 <= NextStep(start) < Steps) <==> (start + 1) % Steps == 0
    ensures -Steps - 1 < start ==> NextStep(start) == start + 1
  {
  }

  /** A note the melodic callback plays: neither falsy nor "rest". */
  predicate Playable(note: Option<NoteValue>)
  {
    note.Some? && note.value.Some? && note.value.value != "" && note.value.value != "rest"
  }

  /** The index after one callback: (noteIndex + 1) % notePattern.length.
      An empty pattern plays nothing and keeps its index. */
  function NextIndex(m: Sequence): nat
    requires m.Melodic?
  {
    if |m.notes| == 0 then m.noteIndex else (m.noteIndex + 1) % |m.notes|
  }

  function Advance(m: Sequence, k: nat): (r: Sequence)
    requires m.Melodic?
    ensures r.Melodic?
    decreases k
  {
    if k == 0 then m else Advance(m.(noteIndex := NextIndex(m)), k - 1)
  }

  /** The note index cycles through the pattern: after k callbacks from a
      valid index it is (noteIndex + k) % length, and every callback reads a
      note of the pattern. */
  lemma {:induction false} MelodicIndexCycles(m: Sequence, k: nat)
    requires m.Melodic? && m.noteIndex < |m.notes|
    ensures Advance(m, k).noteIndex == (m.noteIndex + k) % |m.notes|
    ensures Advance(m, k).notes == m.notes && Advance(m, k).noteIndex < |m.notes|
    decreases k
  {
    if k > 0 {
      var m' := m.(noteIndex := NextIndex(m));
      MelodicIndexCycles(m', k - 1);
      assert (m'.noteIndex + (k - 1)) % |m.notes| == (m.noteIndex + k) % |m.notes| by {
        ModAddLeft(m.noteIndex + 1, k - 1, |m.notes|);
      }
    }
  }

  /** Whether createDrumSequence finds a truthy drum of that name in the kit. */
  predicate HasDrum(kit: seq<Entry<Option<Handle>>>, name: string)
  {
    Find(kit, name).Some? && Find(kit, name).value.Some?
  }

  /** The parts createDrumSequence makes: one per pattern entry that is an
      array and names a drum of the kit, in the patterns' order. */
  function DrumParts(kit: seq<Entry<Option<Handle>>>, patterns: seq<Entry<Option<Grid>>>, running: bool): seq<Part>
  {
    if patterns == [] then []
    else
      var e := patterns[|patterns| - 1];
      DrumParts(kit, patterns[..|patterns| - 1], running)
        + (if e.val.Some? && HasDrum(kit, e.key) then [Part(e.key, |e.val.value|, running)] else [])
  }

  function PartLog(parts: seq<Part>): (r: seq<Event>)
    ensures |r| == |parts|
  {
    seq(|parts|, i requires 0 <= i < |parts| => PartStarted(parts[i].drum))
  }

  /** Pattern entry e is usable (a grid and a loaded drum) and yields part p. */
  predicate MakesPart(kit: seq<Entry<Option<Handle>>>, e: Entry<Option<Grid>>, running: bool, p: Part)
  {
    e.val.Some? && HasDrum(kit, e.key) && p == Part(e.key, |e.val.value|, running)
  }

  /** Exactly the usable pattern entries get a part, each started iff the
      sequencer runs. */
  lemma {:induction false} DrumPartsExactly(kit: seq<Entry<Option<Handle>>>, patterns: seq<Entry<Option<Grid>>>, running: bool)
    ensures forall p :: p in DrumParts(kit, patterns, running) <==>
      exists i :: 0 <= i < |patterns| && MakesPart(kit, patterns[i], running, p)
  {
    if patterns != [] {
      var n := |patterns| - 1;
      var init := patterns[..n];
      DrumPartsExactly(kit, init, running);
      forall p
        ensures p in DrumParts(kit, patterns, running) <==>
          exists i :: 0 <= i < |patterns| && MakesPart(kit, patterns[i], running, p)
      {
        if p in DrumParts(kit, init, running) {
          var i :| 0 <= i < n && MakesPart(kit, init[i], running, p);
          assert patterns[i] == init[i];
        }
        if exists i :: 0 <= i < |patterns| && MakesPart(kit, patterns[i], running, p) {
          var i :| 0 <= i < |patterns| && MakesPart(kit, patterns[i], running, p);
          if i < n {
            assert init[i] == patterns[i];
          }
        }
      }
    }
  }

  lemma {:induction false} DrumPartsState(kit: seq<Entry<Option<Handle>>>, patterns: seq<Entry<Option<Grid>>>, running: bool)
    ensures forall i :: 0 <= i < |DrumParts(kit, patterns, running)| ==> DrumParts(kit, patterns, running)[i].isStarted == running
  {
    if patterns != [] {
      DrumPartsState(kit, patterns[..|patterns| - 1], running);
    }
  }

  /** No step holds two callbacks under one id. */
  predicate CallbacksDistinct(m: map<int, seq<Entry<Handle>>>)
  {
    forall s :: s in m ==> Distinct(m[s])
  }

  /** createDrumSequence's loop over the pattern entries. */
  method BuildParts(kit: seq<Entry<Option<Handle>>>, pats: seq<Entry<Option<Grid>>>, running: bool)
    returns (parts: seq<Part>)
    ensures parts == DrumParts(kit, pats, running)
  {
    parts := [];
    var i := 0;
    while i < |pats|
      invariant 0 <= i <= |pats|
      invariant parts == DrumParts(kit, pats[..i], running)
    {
      assert pats[..i + 1][..i] == pats[..i];
      var e := pats[i];
      if e.val.Some? {
        var drum := Find(kit, e.key);
        if drum.Some? && drum.value.Some? {
          parts := parts + [Part(e.key, |e.val.value|, running)];
        }
      }
      i := i + 1;
    }
    assert pats[..i] == pats;
  }

  class Sequencer {
    var sequences: seq<Entry<Sequence>>
    var subdivision: string
    var isRunning: bool
    var activeSteps: set<int>
    var stepCallbacks: map<int, seq<Entry<Handle>>>
    var currentStep: int
    var events: seq<Event>

    ghost predicate Valid()
      reads this
    {
      Distinct(sequences)
      && AllInStep(sequences, isRunning)
      && CallbacksDistinct(stepCallbacks)
    }

    constructor()
      ensures Valid()
      ensures sequences == [] && subdivision == "16n" && !isRunning && activeSteps == {}
      ensures stepCallbacks == map[] && currentStep == 0 && events == []
    {
      sequences := [];
      subdivision := "16n";
      isRunning := false;
      activeSteps := {};
      stepCallbacks := map[];
      currentStep := 0;
      events := [];
    }

    /** One metronome tick: run the callbacks of the current step in
        registration order, emit the step, advance the counter. */
    method Tick()
      requires Valid()
      modifies this
      ensures Valid()
      ensures events == old(events) + CallbackRuns(CallbacksAt(stepCallbacks, old(currentStep)), old(currentStep))
                                    + [StepEmitted(old(currentStep))]
      ensures currentStep == NextStep(old(currentStep))
      ensures old(currentStep) >= -1 ==> 0 <= currentStep < Steps
      ensures sequences == old(sequences) && isRunning == old(isRunning) && subdivision == old(subdivision)
      ensures stepCallbacks == old(stepCallbacks) && activeSteps == old(activeSteps)
    {
      var step := currentStep;
      var cbs := CallbacksAt(stepCallbacks, step);
      var i := 0;
      var log: seq<Event> := [];
      while i < |cbs|
        invariant 0 <= i <= |cbs|
        invariant log == CallbackRuns(cbs[..i], step)
      {
        log := log + [CallbackRan(cbs[i].key, step)];
        i := i + 1;
      }
      assert cbs[..i] == cbs;
      events := events + log + [StepEmitted(step)];
      currentStep := NextStep(step);
    }

    /** start(startStep): a no-op while running; otherwise set the counter,
        start the metronome and every sequence not yet started. */
    method Start(startStep: int)
      requires Valid()
      modifies this
      ensures Valid() && isRunning
      ensures old(isRunning) ==> sequences == old(sequences) && events == old(events)
                                 && currentStep == old(currentStep)
      ensures !old(isRunning) ==>
        currentStep == startStep
        && sequences == StartAll(old(sequences))
        && events == old(events) + [MetronomeStarted] + StartLog(old(sequences))
      ensures stepCallbacks == old(stepCallbacks) && subdivision == old(subdivision)
      ensures activeSteps == old(activeSteps)
    {
      if !isRunning {
        var acc, log := StartEach(sequences);
        StartAllStarts(sequences);
        KeysDistinct(sequences, acc);
        currentStep, isRunning := startStep, true;
        sequences, events := acc, events + [MetronomeStarted] + log;
      }
    }

    /** stop: a no-op while stopped; otherwise stop the metronome and every
        sequence. */
    method Stop()
      requires Valid()
      modifies this
      ensures Valid() && !isRunning
      ensures !old(isRunning) ==> sequences == old(sequences) && events == old(events)
      ensures old(isRunning) ==> sequences == StopAllSeqs(old(sequences))
      ensures old(isRunning) ==> events == old(events) + [MetronomeStopped] + StopLog(old(sequences))
      ensures stepCallbacks == old(stepCallbacks) && subdivision == old(subdivision)
      ensures currentStep == old(currentStep) && activeSteps == old(activeSteps)
    {
      if isRunning {
        var acc, log := StopEach(sequences);
        isRunning, sequences, events := false, acc, events + [MetronomeStopped] + log;
      }
    }

    /** stopAll: stop, dispose every sequence, and forget all sequences,
        callbacks and active steps. */
    method StopAll()
      requires Valid()
      modifies this
      ensures Valid() && !isRunning
      ensures sequences == [] && stepCallbacks == map[] && activeSteps == {}
      ensures old(isRunning) ==>
        events == old(events) + [MetronomeStopped] + StopLog(old(sequences))
                  + DisposeLog(StopAllSeqs(old(sequences)))
      ensures !old(isRunning) ==> events == old(events) + DisposeLog(old(sequences))
      ensures subdivision == old(subdivision) && currentStep == old(currentStep)
    {
      Stop();
      var log := DisposeEach(sequences);
      events := events + log;
      sequences := [];
      stepCallbacks := map[];
      activeSteps := {};
    }

    /** createDrumSequence: None for a falsy kit or patterns; otherwise one
        part per usable pattern entry, started at once iff running, grouped
        and registered under id. */
    method CreateDrumSequence(drumKit: Option<seq<Entry<Option<Handle>>>>,
                              patterns: Option<seq<Entry<Option<Grid>>>>, id: string)
      returns (r: Option<(string, Sequence)>)
      requires Valid()
      modifies this
      ensures Valid()
      ensures r.None? <==> drumKit.None? || patterns.None?
      ensures r.None? ==> sequences == old(sequences) && events == old(events)
      ensures r.Some? ==>
        var parts := DrumParts(drumKit.value, patterns.value, isRunning);
        r.value == (id, DrumGroup(parts, false))
        && sequences == Assign(old(sequences), id, r.value.1)
        && events == old(events) + (if isRunning then PartLog(parts) else [])
      ensures isRunning == old(isRunning) && stepCallbacks == old(stepCallbacks)
      ensures subdivision == old(subdivision) && currentStep == old(currentStep)
      ensures activeSteps == old(activeSteps)
    {
      if drumKit.None? || patterns.None? {
        return None;
      }
      var parts := BuildParts(drumKit.value, patterns.value, isRunning);
      var group := DrumGroup(parts, false);
      DrumPartsState(drumKit.value, patterns.value, isRunning);
      RegisterKeepsValid(sequences, id, group, isRunning);
      sequences, events := Assign(sequences, id, group), events + (if isRunning then PartLog(parts) else []);
      return Some((id, group));
    }

    /** createMelodicSequence: None without a synth or a note array; the
        rhythm defaults to 8n for every note; started at once iff running. */
    method CreateMelodicSequence(synth: Option<Handle>, notePattern: Option<seq<NoteValue>>,
                                 rhythmPattern: Option<seq<Duration>>, id: string)
      returns (r: Option<(string, Sequence)>)
      requires Valid()
      modifies this
      ensures Valid()
      ensures r.None? <==> synth.None? || notePattern.None?
      ensures r.None? ==> sequences == old(sequences) && events == old(events)
      ensures r.Some? ==>
        var rhythm := if rhythmPattern.Some? then rhythmPattern.value else seq(|notePattern.value|, _ => "8n");
        var n := |notePattern.value|;
        r.value == (id, Melodic(synth.value, notePattern.value, rhythm,
                                if n >= |rhythm| then n else |rhythm|, 0, isRunning, subdivision))
        && sequences == Assign(old(sequences), id, r.value.1)
        && events == old(events) + (if isRunning then [SequenceStarted(id)] else [])
      ensures isRunning == old(isRunning) && stepCallbacks == old(stepCallbacks)
      ensures subdivision == old(subdivision) && currentStep == old(currentStep)
      ensures activeSteps == old(activeSteps)
    {
      if synth.None? || notePattern.None? {
        return None;
      }
      var notes := notePattern.value;
      var rhythm := if rhythmPattern.Some? then rhythmPattern.value else seq(|notes|, _ => "8n");
      var length := if |notes| >= |rhythm| then |notes| else |rhythm|;
      var m := Melodic(synth.value, notes, rhythm, length, 0, isRunning, subdivision);
      if isRunning {
        events := events + [SequenceStarted(id)];
      }
      RegisterKeepsValid(sequences, id, m, isRunning);
      sequences := Assign(sequences, id, m);
      return Some((id, m));
    }

    /** The callback of the melodic sequence registered under id fires: it
        plays the current note unless it is falsy or "rest", with the
        duration at the same index, and advances the index. */
    method MelodicStep(id: string)
      requires Valid()
      modifies this
      ensures Valid()
      ensures match Find(old(sequences), id)
        case Some(m) =>
          if m.Melodic? then
            sequences == Assign(old(sequences), id, m.(noteIndex := NextIndex(m)))
            && events == old(events) + (if Playable(At(m.notes, m.noteIndex))
                                        then [NotePlayed(m.synth, m.notes[m.noteIndex].value, At(m.rhythm, m.noteIndex))]
                                        else [])
          else sequences == old(sequences) && events == old(events)
        case None => sequences == old(sequences) && events == old(events)
      ensures isRunning == old(isRunning) && stepCallbacks == old(stepCallbacks)
      ensures subdivision == old(subdivision) && currentStep == old(currentStep)
      ensures activeSteps == old(activeSteps)
    {
      var found := Find(sequences, id);
      if found.None? || !found.value.Melodic? {
        return;
      }
      var m := found.value;
      var note := At(m.notes, m.noteIndex);
      if Playable(note) {
        events := events + [NotePlayed(m.synth, note.value.value, At(m.rhythm, m.noteIndex))];
      }
      var m' := m.(noteIndex := NextIndex(m));
      assert InStep(m, isRunning) by {
        var k :| 0 <= k < |sequences| && sequences[k] == Entry(id, m);
      }
      RegisterKeepsValid(sequences, id, m', isRunning);
      sequences := Assign(sequences, id, m');
    }

    /** onStep: registers the callback under the fresh id for the step and
        returns the id. */
    method OnStep(step: int, callback: Handle, callbackId: string) returns (id: string)
      requires Valid()
      modifies this
      ensures Valid()
      ensures id == callbackId
      ensures stepCallbacks == OnStepMap(old(stepCallbacks), step, callbackId, callback)
      ensures sequences == old(sequences) && events == old(events) && isRunning == old(isRunning)
      ensures subdivision == old(subdivision) && currentStep == old(currentStep)
      ensures activeSteps == old(activeSteps)
    {
      if step !in stepCallbacks {
        stepCallbacks := stepCallbacks[step := []];
      }
      AssignDistinct(stepCallbacks[step], callbackId, callback);
      stepCallbacks := stepCallbacks[step := Assign(stepCallbacks[step], callbackId, callback)];
      return callbackId;
    }

    /** offStep: removes the callback with that id from the step. */
    method OffStep(step: int, callbackId: string)
      requires Valid()
      modifies this
      ensures Valid()
      ensures stepCallbacks == OffStepMap(old(stepCallbacks), step, callbackId)
      ensures sequences == old(sequences) && events == old(events) && isRunning == old(isRunning)
      ensures subdivision == old(subdivision) && currentStep == old(currentStep)
      ensures activeSteps == old(activeSteps)
    {
      if step in stepCallbacks {
        RemoveEntries(stepCallbacks[step], callbackId);
        stepCallbacks := stepCallbacks[step := Remove(stepCallbacks[step], callbackId)];
      }
    }

    /** setSubdivision: the sequencer, its metronome and every melodic
        sequence take the new subdivision. */
    method SetSubdivision(sub: string)
      requires Valid()
      modifies this
      ensures Valid()
      ensures subdivision == sub
      ensures sequences == WithSubdivision(old(sequences), sub)
      ensures events == old(events) + [MetronomeInterval(sub)]
      ensures isRunning == old(isRunning) && stepCallbacks == old(stepCallbacks)
      ensures currentStep == old(currentStep) && activeSteps == old(activeSteps)
    {
      var acc := SubdivideEach(sequences, sub);
      SubdivisionKeepsValid(sequences, sub, isRunning);
      subdivision, sequences, events := sub, acc, events + [MetronomeInterval(sub)];
    }
  }

  /** start's forEach over the registry: start each sequence not yet
      started, in insertion order. */
  method StartEach(es: seq<Entry<Sequence>>) returns (acc: seq<Entry<Sequence>>, log: seq<Event>)
    ensures acc == StartAll(es) && log == StartLog(es)
  {
    var i := 0;
    acc, log := [], [];
    while i < |es|
      invariant 0 <= i <= |es|
      invariant acc == StartAll(es[..i])
      invariant log == StartLog(es[..i])
    {
      StartAllStep(es, i);
      acc, log := acc + [StartOne(es[i])], log + StartLogOne(es[i]);
      i := i + 1;
    }
    assert es[..i] == es;
  }

  /** stop's forEach: stop every sequence, in insertion order. */
  method StopEach(es: seq<Entry<Sequence>>) returns (acc: seq<Entry<Sequence>>, log: seq<Event>)
    requires Distinct(es)
    ensures acc == StopAllSeqs(es) && log == StopLog(es)
    ensures Distinct(acc) && AllInStep(acc, false)
  {
    var i := 0;
    acc, log := [], [];
    while i < |es|
      invariant 0 <= i <= |es|
      invariant acc == StopAllSeqs(es[..i])
      invariant log == StopLog(es[..i])
    {
      var e := es[i];
      assert es[..i + 1][..i] == es[..i];
      acc := acc + [Entry(e.key, Stopped(e.val))];
      log := log + [SequenceStopped(e.key)];
      i := i + 1;
    }
    assert es[..i] == es;
    StopAllStops(es);
    KeysDistinct(es, acc);
  }

  /** stopAll's forEach: dispose every sequence, in insertion order. */
  method DisposeEach(es: seq<Entry<Sequence>>) returns (log: seq<Event>)
    ensures log == DisposeLog(es)
  {
    var i := 0;
    log := [];
    while i < |es|
      invariant 0 <= i <= |es|
      invariant log == DisposeLog(es[..i])
    {
      assert es[..i + 1][..i] == es[..i];
      log := log + [SequenceDisposed(es[i].key)];
      i := i + 1;
    }
    assert es[..i] == es;
  }

  /** setSubdivision's forEach: every sequence with a subdivision takes the
      new one. */
  method SubdivideEach(es: seq<Entry<Sequence>>, sub: string) returns (acc: seq<Entry<Sequence>>)
    ensures acc == WithSubdivision(es, sub)
  {
    var i := 0;
    acc := [];
    while i < |es|
      invariant 0 <= i <= |es|
      invariant acc == WithSubdivision(es[..i], sub)
    {
      SubdivideStep(es, sub, i);
      acc := acc + [SubdivideOne(es[i], sub)];
      i := i + 1;
    }
    assert es[..i] == es;
  }

  /** Entry by entry the same keys: distinctness carries over. */
  lemma KeysDistinct(es: seq<Entry<Sequence>>, r: seq<Entry<Sequence>>)
    requires Distinct(es) && |r| == |es|
    requires forall i :: 0 <= i < |r| ==> r[i].key == es[i].key
    ensures Distinct(r)
  {
  }

  /** Registering a sequence that is in step with the sequencer keeps the
      registry well formed. */
  lemma RegisterKeepsValid(es: seq<Entry<Sequence>>, id: string, s: Sequence, running: bool)
    requires Distinct(es) && AllInStep(es, running)
    requires InStep(s, running)
    ensures Distinct(Assign(es, id, s))
    ensures AllInStep(Assign(es, id, s), running)
  {
    AssignDistinct(es, id, s);
    AssignValues(es, id, s);
    var r := Assign(es, id, s);
    forall i | 0 <= i < |r|
      ensures InStep(r[i].val, running)
    {
      assert r[i] in r;
      if r[i] != Entry(id, s) {
        var k :| 0 <= k < |es| && es[k] == r[i];
      }
    }
  }
}
