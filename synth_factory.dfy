/** The synth factory (src/audio/instruments/synthFactory.js). It builds
    instruments and keeps a registry of them by id, and it disposes one
    instrument or all of them. The cat sampler holds back the notes it is
    asked to play until its samples have loaded. Tone.js objects are handles.
    A constructor that throws is modelled as a missing handle. Each id takes
    a stamp for the `${Date.now()}_${random}` part. */
module SynthFactory {
  import opened Common
  import opened Assoc
  import opened JsValues

  /** A stored instrument: a single Tone.js synth, or a drum-kit object that
      holds three synths. */
  datatype Synth = Instrument(h: Handle) | Kit(kick: Handle, snare: Handle, hihat: Handle)

  /** The argument of disposeSynth: a string id, an object (idProp is its id
      property, None when it has none), or null/undefined. */
  datatype SynthRef = ById(id: string) | ByObject(idProp: Option<string>) | NullRef

  datatype Event =
    | Disposed(h: Handle)
    /** A fallback synth sent to the destination with the given volume. */
    | FallbackCreated(h: Handle, volume: real)

  /** The dispose calls disposeSynth makes for the synth stored under id. For
      an id that starts with drumKit, the kick, snare and hihat are disposed
      one by one. Otherwise the synth's own dispose is called. A drum-kit
      object has no dispose of its own. */
  function DisposeCallsFor(id: string, s: Synth): seq<Event>
  {
    if "drumKit" <= id then
      (if s.Kit? then [Disposed(s.kick), Disposed(s.snare), Disposed(s.hihat)] else [])
    else if s.Instrument? then [Disposed(s.h)]
    else []
  }

  /** Every synth is disposed once, and a drum kit's three parts are
      disposed when it is stored under a drumKit id. */
  lemma DisposeCallsCases(id: string, s: Synth)
    ensures "drumKit" <= id && s.Kit? ==> DisposeCallsFor(id, s) == [Disposed(s.kick), Disposed(s.snare), Disposed(s.hihat)]
    ensures !("drumKit" <= id) && s.Instrument? ==> DisposeCallsFor(id, s) == [Disposed(s.h)]
    ensures forall e :: e in DisposeCallsFor(id, s) ==>
              e.Disposed? && (e.h == (if s.Instrument? then s.h else s.kick) || (s.Kit? && (e.h == s.snare || e.h == s.hihat)))
  {
  }

  /** The dispose calls of disposeAll, entry by entry in insertion order. */
  function AllDisposeCalls(es: seq<Entry<Synth>>): seq<Event>
  {
    if es == [] then []
    else AllDisposeCalls(es[..|es| - 1]) + DisposeCallsFor(es[|es| - 1].key, es[|es| - 1].val)
  }

  /** disposeAll makes the calls of every entry: a call for the entry at i
      appears in the whole list. */
  lemma {:induction false} AllDisposeCallsCover(es: seq<Entry<Synth>>, i: nat, e: Event)
    requires i < |es| && e in DisposeCallsFor(es[i].key, es[i].val)
    ensures e in AllDisposeCalls(es)
  {
    if i < |es| - 1 {
      assert es[..|es| - 1][i] == es[i];
      AllDisposeCallsCover(es[..|es| - 1], i, e);
    }
  }

  /** The kinds whose fallback is returned without being registered. */
  datatype Kind = Poly | Mono | FM | AM | Cat

  function KindName(k: Kind): string
  {
    match k
    case Poly => "poly"
    case Mono => "mono"
    case FM => "fm"
    case AM => "am"
    case Cat => "cat"
  }

  /** A note for triggerAttackRelease: the note, duration and time, passed on
      as given. */
  datatype Trigger = Trigger(note: string, duration: JsValue, time: JsValue)

  /** The triggers the onload flush plays: the queued ones in order, minus
      those whose call throws. */
  function Replayed(ts: seq<Trigger>, throws: Trigger -> bool): seq<Trigger>
  {
    if ts == [] then []
    else Replayed(ts[..|ts| - 1], throws) + (if throws(ts[|ts| - 1]) then [] else [ts[|ts| - 1]])
  }

  /** A trigger is played exactly when it was queued and its call does not
      throw: a throwing one does not stop the rest. With no throwing call,
      the queue is played whole, in the order it was filled. */
  lemma {:induction false} ReplayedFacts(ts: seq<Trigger>, throws: Trigger -> bool, t: Trigger)
    ensures t in Replayed(ts, throws) <==> t in ts && !throws(t)
    ensures (forall u :: u in ts ==> !throws(u)) ==> Replayed(ts, throws) == ts
    ensures |Replayed(ts, throws)| <= |ts|
  {
    ReplayedMember(ts, throws, t);
    ReplayedLength(ts, throws);
    if forall u :: u in ts ==> !throws(u) {
      assert forall i :: 0 <= i < |ts| ==> ts[i] in ts;
      ReplayedWhole(ts, throws);
    }
  }

  lemma {:induction false} ReplayedMember(ts: seq<Trigger>, throws: Trigger -> bool, t: Trigger)
    ensures t in Replayed(ts, throws) <==> t in ts && !throws(t)
  {
    if ts != [] {
      var init := ts[..|ts| - 1];
      ReplayedMember(init, throws, t);
      assert ts == init + [ts[|ts| - 1]];
    }
  }

  lemma {:induction false} ReplayedLength(ts: seq<Trigger>, throws: Trigger -> bool)
    ensures |Replayed(ts, throws)| <= |ts|
  {
    if ts != [] {
      ReplayedLength(ts[..|ts| - 1], throws);
    }
  }

  lemma {:induction false} ReplayedWhole(ts: seq<Trigger>, throws: Trigger -> bool)
    requires forall i :: 0 <= i < |ts| ==> !throws(ts[i])
    ensures Replayed(ts, throws) == ts
  {
    if ts != [] {
      var n := |ts| - 1;
      var init := ts[..n];
      forall i | 0 <= i < |init|
        ensures !throws(init[i])
      {
        assert init[i] == ts[i];
      }
      ReplayedWhole(init, throws);
      assert !throws(ts[n]);
      assert Replayed(ts, throws) == Replayed(init, throws) + [ts[n]];
      assert init + [ts[n]] == ts;
    }
  }

  /** The Tone.Sampler built by createCatSampler, with the fields and the
      method the factory adds to it. */
  class CatSampler {
    const h: Handle
    /** pendingTriggers. */
    var pending: seq<Trigger>
    /** The factory's own _isLoaded flag. */
    var isLoaded: bool
    /** Tone's loaded property. */
    var loaded: bool
    /** The triggerAttackRelease calls made so far. */
    var played: seq<Trigger>

    constructor(handle: Handle)
      ensures h == handle && pending == [] && !isLoaded && !loaded && played == []
    {
      h := handle;
      pending := [];
      isLoaded := false;
      loaded := false;
      played := [];
    }

    /** safeTriggerAttackRelease: play now when either flag says loaded,
        otherwise queue the trigger. */
    method SafeTriggerAttackRelease(t: Trigger) returns (queued: bool)
      modifies this
      ensures isLoaded == old(isLoaded) && loaded == old(loaded)
      ensures old(isLoaded) || old(loaded) ==> !queued && played == old(played) + [t] && pending == old(pending)
      ensures !old(isLoaded) && !old(loaded) ==> queued && pending == old(pending) + [t] && played == old(played)
    {
      if isLoaded || loaded {
        played := played + [t];
        return false;
      }
      pending := pending + [t];
      return true;
    }

    /** The onload callback: mark loaded, replay the queue in order (a
        throwing call is skipped) and empty it. throws says which calls
        throw. */
    method OnLoad(throws: Trigger -> bool)
      modifies this
      ensures isLoaded && loaded == old(loaded) && pending == []
      ensures played == old(played) + Replayed(old(pending), throws)
    {
      isLoaded := true;
      var queue := pending;
      if |queue| > 0 {
        ghost var start := played;
        for i := 0 to |queue|
          invariant isLoaded && loaded == old(loaded)
          invariant played == start + Replayed(queue[..i], throws)
        {
          assert queue[..i + 1][..i] == queue[..i];
          if !throws(queue[i]) {
            played := played + [queue[i]];
          }
        }
        assert queue[..|queue|] == queue;
        pending := [];
      } else {
        assert played + [] == played;
      }
    }
  }

  /** The id disposeSynth looks up. */
  function RefId(r: SynthRef): Option<string>
    requires !r.NullRef?
  {
    if r.ById? then Some(r.id) else r.idProp
  }

  /** disposeAll's step: the entry at i is the first one left; disposing it
      adds its calls and leaves the entries after it. */
  lemma DisposeFirst(entries: seq<Entry<Synth>>, i: nat)
    requires i < |entries| && Distinct(entries[i..])
    ensures HasKey(entries[i..], entries[i].key)
    ensures Find(entries[i..], entries[i].key) == Some(entries[i].val)
    ensures Remove(entries[i..], entries[i].key) == entries[i + 1..]
    ensures AllDisposeCalls(entries[..i + 1]) == AllDisposeCalls(entries[..i]) + DisposeCallsFor(entries[i].key, entries[i].val)
  {
    var rest := entries[i..];
    assert rest[0] == entries[i];
    assert entries[..i + 1][..i] == entries[..i];
    RemoveFirst(rest);
    assert rest[1..] == entries[i + 1..];
  }

  class Factory {
    /** this.synths, in insertion order. */
    var synths: seq<Entry<Synth>>
    var events: seq<Event>

    ghost predicate Valid()
      reads this
    {
      Distinct(synths)
    }

    constructor()
      ensures Valid() && synths == [] && events == []
    {
      synths := [];
      events := [];
    }

    /** getSynth: the synth stored under id, or null. */
    function GetSynth(id: string): (r: Option<Synth>)
      reads this
      ensures r.Some? <==> HasKey(synths, id)
      ensures r.Some? ==> Entry(id, r.value) in synths
    {
      Find(synths, id)
    }

    /** _storeSynth: the id is the type, an underscore and the stamp; the
        synth is stored under it (replacing whatever had that id) and
        getSynth finds it there. */
    method StoreSynth(kind: string, synth: Synth, stamp: string) returns (id: string)
      requires Valid()
      modifies this
      ensures Valid()
      ensures id == kind + "_" + stamp && kind + "_" <= id
      ensures synths == Assign(old(synths), id, synth) && events == old(events)
      ensures GetSynth(id) == Some(synth)
      ensures forall k :: k != id ==> GetSynth(k) == old(GetSynth(k))
    {
      id := kind + "_" + stamp;
      AssignDistinct(synths, id, synth);
      forall k
        ensures Find(Assign(synths, id, synth), k) == if k == id then Some(synth) else Find(synths, k)
      {
        FindAssign(synths, id, synth, k);
      }
      synths := Assign(synths, id, synth);
    }

    /** createPolySynth, createMonoSynth, createFMSynth, createAMSynth and
        createCatSynth: a synth that was built is registered; when its
        constructor throws, a fallback at -15 dB is returned unregistered. */
    method CreateSynth(kind: Kind, built: Option<Handle>, fallback: Handle, stamp: string) returns (s: Synth)
      requires Valid()
      modifies this
      ensures Valid()
      ensures built.Some? ==>
                s == Instrument(built.value) && events == old(events)
                && synths == Assign(old(synths), KindName(kind) + "_" + stamp, s)
      ensures built.None? ==>
                s == Instrument(fallback) && synths == old(synths)
                && events == old(events) + [FallbackCreated(fallback, -15.0)]
    {
      if built.Some? {
        s := Instrument(built.value);
        var id := StoreSynth(KindName(kind), s, stamp);
      } else {
        s := Instrument(fallback);
        events := events + [FallbackCreated(fallback, -15.0)];
      }
    }

    /** createDrumKit: the kit that was built, or the fallback kit when a
        constructor throws, is registered under a drumKit id either way. */
    method CreateDrumKit(built: Option<(Handle, Handle, Handle)>, fallback: (Handle, Handle, Handle), stamp: string)
      returns (s: Synth)
      requires Valid()
      modifies this
      ensures Valid()
      ensures var parts := if built.Some? then built.value else fallback;
        s == Kit(parts.0, parts.1, parts.2)
      ensures synths == Assign(old(synths), "drumKit_" + stamp, s) && events == old(events)
    {
      var parts := if built.Some? then built.value else fallback;
      s := Kit(parts.0, parts.1, parts.2);
      var id := StoreSynth("drumKit", s, stamp);
      assert "drumKit" + "_" + stamp == "drumKit_" + stamp;
    }

    /** createSampler: no fallback; the sampler is registered. */
    method CreateSampler(h: Handle, stamp: string) returns (s: Synth)
      requires Valid()
      modifies this
      ensures Valid()
      ensures s == Instrument(h) && synths == Assign(old(synths), "sampler_" + stamp, s) && events == old(events)
    {
      s := Instrument(h);
      var id := StoreSynth("sampler", s, stamp);
      assert "sampler" + "_" + stamp == "sampler_" + stamp;
    }

    /** createCatSampler: a sampler that was built is registered with an empty
        queue and not yet loaded. When its constructor throws, the result is
        createCatSynth's. */
    method CreateCatSampler(built: Option<Handle>, stamp: string, catBuilt: Option<Handle>, catFallback: Handle, catStamp: string)
      returns (s: Synth, sampler: CatSampler?)
      requires Valid()
      modifies this
      ensures Valid()
      ensures built.Some? ==>
                s == Instrument(built.value) && sampler != null && fresh(sampler)
                && sampler.h == built.value && sampler.pending == [] && !sampler.isLoaded && !sampler.loaded
                && synths == Assign(old(synths), "catSampler_" + stamp, s) && events == old(events)
      ensures built.None? ==>
                sampler == null
                && (catBuilt.Some? ==>
                      s == Instrument(catBuilt.value) && events == old(events)
                      && synths == Assign(old(synths), "cat_" + catStamp, s))
                && (catBuilt.None? ==>
                      s == Instrument(catFallback) && synths == old(synths)
                      && events == old(events) + [FallbackCreated(catFallback, -15.0)])
    {
      if built.Some? {
        sampler := new CatSampler(built.value);
        s := Instrument(built.value);
        var id := StoreSynth("catSampler", s, stamp);
        assert "catSampler" + "_" + stamp == "catSampler_" + stamp;
      } else {
        sampler := null;
        s := CreateSynth(Cat, catBuilt, catFallback, catStamp);
        assert KindName(Cat) + "_" + catStamp == "cat_" + catStamp;
      }
    }

    /** disposeSynth: looks the id up (a string, or the object's id); when a
        synth is stored there it is disposed and that entry alone is deleted;
        otherwise nothing happens. Reading the id of null throws. */
    method DisposeSynth(r: SynthRef) returns (threw: bool)
      requires Valid()
      modifies this
      ensures Valid()
      ensures r.NullRef? ==> threw && synths == old(synths) && events == old(events)
      ensures !r.NullRef? ==> !threw
      ensures !r.NullRef? && (RefId(r).None? || !HasKey(old(synths), RefId(r).value)) ==>
                synths == old(synths) && events == old(events)
      ensures !r.NullRef? && RefId(r).Some? && HasKey(old(synths), RefId(r).value) ==>
                var id := RefId(r).value;
                && events == old(events) + DisposeCallsFor(id, Find(old(synths), id).value)
                && synths == Remove(old(synths), id)
    {
      if r.NullRef? {
        return true;
      }
      threw := false;
      var id := RefId(r);
      if id.None? {
        return;
      }
      var synth := Find(synths, id.value);
      if synth.Some? {
        events := events + DisposeCallsFor(id.value, synth.value);
        RemoveEntries(synths, id.value);
        synths := Remove(synths, id.value);
      }
    }

    /** disposeAll: every entry is disposed in insertion order, then the
        registry is empty. */
    method DisposeAll()
      requires Valid()
      modifies this
      ensures Valid()
      ensures synths == [] && events == old(events) + AllDisposeCalls(old(synths))
    {
      var entries := synths;
      ghost var start := events;
      for i := 0 to |entries|
        invariant Valid() && synths == entries[i..]
        invariant events == start + AllDisposeCalls(entries[..i])
      {
        DisposeFirst(entries, i);
        ghost var calls := DisposeCallsFor(entries[i].key, entries[i].val);
        assert start + AllDisposeCalls(entries[..i + 1]) == events + calls;
        var threw := DisposeSynth(ById(entries[i].key));
      }
      assert entries[..|entries|] == entries;
      synths := [];
    }
  }
}
