/** The catalog of musical material: scales, rhythm patterns, drum grids and
    the object-class to oscillator-type table, with the validated operations
    that add custom entries. */
module PatternManager {
  import opened Common
  import opened Assoc

  /** A pitch name such as "C3" or "F#4". */
  type Note = string
  /** A Tone.js duration such as "8n" or "4t". */
  type Duration = string
  /** One drum voice over eight eighth-note steps: a note to hit, or null. */
  type Grid = seq<Option<Note>>
  /** Drum voice name (kick, snare, hihat) to its grid. */
  type DrumPattern = seq<Entry<Grid>>

  function BuiltInScales(): seq<Entry<seq<Note>>>
  {
    [ Entry("major", ["C3", "D3", "E3", "F3", "G3", "A3", "B3", "C4", "D4", "E4", "F4", "G4"]),
      Entry("minor", ["C3", "D3", "Eb3", "F3", "G3", "Ab3", "Bb3", "C4", "D4", "Eb4", "F4", "G4"]),
      Entry("pentatonic", ["C3", "D3", "E3", "G3", "A3", "C4", "D4", "E4", "G4", "A4"]),
      Entry("blues", ["C3", "Eb3", "F3", "F#3", "G3", "Bb3", "C4", "Eb4", "F4", "F#4", "G4", "Bb4"]) ]
  }

  function BuiltInRhythms(): seq<Entry<seq<Duration>>>
  {
    [ Entry("basic", ["8n", "4n", "2n", "1n"]),
      Entry("techno", ["16n", "8n", "8n.", "4n"]),
      Entry("jazz", ["8t", "4t", "2t", "1t"]),
      Entry("latin", ["16n", "8n", "8n.", "4n."]) ]
  }

  function Kick(s: seq<bool>): Grid
  {
    if s == [] then [] else [if s[0] then Some("C2") else None] + Kick(s[1..])
  }

  function Hat(s: seq<bool>): Grid
  {
    if s == [] then [] else [if s[0] then Some("F#2") else None] + Hat(s[1..])
  }

  function Drums(kick: seq<bool>, snare: seq<bool>, hihat: seq<bool>): DrumPattern
  {
    [Entry("kick", Kick(kick)), Entry("snare", Kick(snare)), Entry("hihat", Hat(hihat))]
  }

  const X := true
  const o := false

  function BuiltInDrumPatterns(): seq<Entry<DrumPattern>>
  {
    [ Entry("basic", Drums([X, o, o, o, X, o, o, o], [o, o, X, o, o, o, X, o], [X, X, X, X, X, X, X, X])),
      Entry("techno", Drums([X, o, o, X, X, o, o, X], [o, o, X, o, o, o, X, X], [X, X, X, X, X, X, X, X])),
      Entry("jazz", Drums([X, o, X, o, o, X, o, X], [o, o, X, o, X, o, o, X], [X, o, X, o, X, o, X, o])),
      Entry("latin", Drums([X, o, o, X, o, X, o, o], [o, o, X, o, X, o, X, X], [X, X, X, X, X, X, X, X])) ]
  }

  function BuiltInTimbres(): seq<Entry<string>>
  {
    [ Entry("person", "sine"), Entry("bottle", "square"), Entry("cup", "triangle"),
      Entry("book", "sawtooth"), Entry("cell phone", "fmsine"), Entry("keyboard", "fmtriangle"),
      Entry("remote", "amsine"), Entry("mouse", "fatsawtooth"), Entry("laptop", "pulse") ]
  }

  /** Every list in a table is non-empty: the engine indexes into them. */
  predicate AllNonEmpty<T>(t: seq<Entry<seq<T>>>)
  {
    forall i :: 0 <= i < |t| ==> t[i].val != []
  }

  /** A drum pattern that is a kick, snare and hihat grid of eight steps. */
  predicate EightStepKit(p: DrumPattern)
  {
    Keys(p) == ["kick", "snare", "hihat"] && forall i :: 0 <= i < |p| ==> |p[i].val| == 8
  }

  lemma {:induction false} GridLength(s: seq<bool>)
    ensures |Kick(s)| == |s| && |Hat(s)| == |s|
  {
    if s != [] {
      GridLength(s[1..]);
    }
  }

  lemma DrumsEightSteps(kick: seq<bool>, snare: seq<bool>, hihat: seq<bool>)
    requires |kick| == |snare| == |hihat| == 8
    ensures EightStepKit(Drums(kick, snare, hihat))
  {
    GridLength(kick);
    GridLength(snare);
    GridLength(hihat);
  }

  /** Every built-in drum pattern has eight-step kick, snare and hihat grids. */
  lemma BuiltInDrumGrids()
    ensures Distinct(BuiltInDrumPatterns())
    ensures forall i :: 0 <= i < |BuiltInDrumPatterns()| ==> EightStepKit(BuiltInDrumPatterns()[i].val)
  {
    DrumsEightSteps([X, o, o, o, X, o, o, o], [o, o, X, o, o, o, X, o], [X, X, X, X, X, X, X, X]);
    DrumsEightSteps([X, o, o, X, X, o, o, X], [o, o, X, o, o, o, X, X], [X, X, X, X, X, X, X, X]);
    DrumsEightSteps([X, o, X, o, o, X, o, X], [o, o, X, o, X, o, o, X], [X, o, X, o, X, o, X, o]);
    DrumsEightSteps([X, o, o, X, o, X, o, o], [o, o, X, o, X, o, X, X], [X, X, X, X, X, X, X, X]);
  }

  /** The built-in tables have distinct keys and non-empty scales and rhythms. */
  lemma BuiltInTablesWellFormed()
    ensures Distinct(BuiltInScales()) && AllNonEmpty(BuiltInScales())
    ensures Distinct(BuiltInRhythms()) && AllNonEmpty(BuiltInRhythms())
    ensures Distinct(BuiltInDrumPatterns()) && Distinct(BuiltInTimbres())
  {
    BuiltInDrumGrids();
    ScalesWellFormed();
    RhythmsWellFormed();
    TimbresDistinct();
  }

  lemma ScalesWellFormed()
    ensures Distinct(BuiltInScales()) && AllNonEmpty(BuiltInScales())
  {
    assert |BuiltInScales()| == 4;
    assert forall i, j :: 0 <= i < j < 4 ==> Separated(BuiltInScales()[i].key, BuiltInScales()[j].key);
    DistinctBySignature(BuiltInScales());
  }

  lemma RhythmsWellFormed()
    ensures Distinct(BuiltInRhythms()) && AllNonEmpty(BuiltInRhythms())
  {
    assert |BuiltInRhythms()| == 4;
    assert forall i, j :: 0 <= i < j < 4 ==> Separated(BuiltInRhythms()[i].key, BuiltInRhythms()[j].key);
    DistinctBySignature(BuiltInRhythms());
  }

  lemma TimbresDistinct()
    ensures Distinct(BuiltInTimbres())
  {
    assert |BuiltInTimbres()| == 9;
    assert forall i, j :: 0 <= i < j < 9 ==> Separated(BuiltInTimbres()[i].key, BuiltInTimbres()[j].key);
    DistinctBySignature(BuiltInTimbres());
  }

  /** Two names that differ in length or in one of their first two
      characters. */
  predicate Separated(a: string, b: string)
  {
    |a| != |b| || (|a| > 0 && a[0] != b[0]) || (|a| > 1 && a[1] != b[1])
  }

  lemma DistinctBySignature<V>(es: seq<Entry<V>>)
    requires forall i, j :: 0 <= i < j < |es| ==> Separated(es[i].key, es[j].key)
    ensures Distinct(es)
  {
  }

  class Manager {
    var scales: seq<Entry<seq<Note>>>
    var rhythmPatterns: seq<Entry<seq<Duration>>>
    var drumPatterns: seq<Entry<DrumPattern>>
    var timbres: seq<Entry<string>>

    ghost predicate Valid()
      reads this
    {
      Distinct(scales) && Distinct(rhythmPatterns) && Distinct(drumPatterns) && Distinct(timbres)
      && AllNonEmpty(scales) && AllNonEmpty(rhythmPatterns)
    }

    constructor()
      ensures Valid()
      ensures scales == BuiltInScales() && rhythmPatterns == BuiltInRhythms()
      ensures drumPatterns == BuiltInDrumPatterns() && timbres == BuiltInTimbres()
    {
      scales := BuiltInScales();
      rhythmPatterns := BuiltInRhythms();
      drumPatterns := BuiltInDrumPatterns();
      timbres := BuiltInTimbres();
      BuiltInTablesWellFormed();
    }

    /** getScales: a copy of the scale table, every list of which is non-empty. */
    function GetScales(): (r: seq<Entry<seq<Note>>>)
      requires Valid()
      reads this
      ensures Distinct(r) && AllNonEmpty(r)
      ensures forall k :: Find(r, k) == Find(scales, k)
    {
      scales
    }

    /** getRhythmPatterns: a copy of the rhythm table, every list non-empty. */
    function GetRhythmPatterns(): (r: seq<Entry<seq<Duration>>>)
      requires Valid()
      reads this
      ensures Distinct(r) && AllNonEmpty(r)
      ensures forall k :: Find(r, k) == Find(rhythmPatterns, k)
    {
      rhythmPatterns
    }

    function GetDrumPatterns(): (r: seq<Entry<DrumPattern>>)
      requires Valid()
      reads this
      ensures Distinct(r)
      ensures forall k :: Find(r, k) == Find(drumPatterns, k)
    {
      drumPatterns
    }

    function GetTimbres(): (r: seq<Entry<string>>)
      requires Valid()
      reads this
      ensures Distinct(r)
      ensures forall k :: Find(r, k) == Find(timbres, k)
    {
      timbres
    }

    /** createCustomScale: notes is None when the argument is not an array. */
    method CreateCustomScale(name: string, notes: Option<seq<Note>>) returns (ok: bool)
      requires Valid()
      modifies this
      ensures Valid()
      ensures ok <==> name != "" && notes.Some? && notes.value != []
      ensures scales == if ok then Assign(old(scales), name, notes.value) else old(scales)
      ensures rhythmPatterns == old(rhythmPatterns) && drumPatterns == old(drumPatterns)
      ensures timbres == old(timbres)
    {
      if name == "" || notes.None? || notes.value == [] {
        return false;
      }
      StoreKeepsNonEmpty(scales, name, notes.value);
      scales := Assign(scales, name, notes.value);
      return true;
    }

    method CreateCustomRhythmPattern(name: string, durations: Option<seq<Duration>>) returns (ok: bool)
      requires Valid()
      modifies this
      ensures Valid()
      ensures ok <==> name != "" && durations.Some? && durations.value != []
      ensures rhythmPatterns == if ok then Assign(old(rhythmPatterns), name, durations.value) else old(rhythmPatterns)
      ensures scales == old(scales) && drumPatterns == old(drumPatterns) && timbres == old(timbres)
    {
      if name == "" || durations.None? || durations.value == [] {
        return false;
      }
      StoreKeepsNonEmpty(rhythmPatterns, name, durations.value);
      rhythmPatterns := Assign(rhythmPatterns, name, durations.value);
      return true;
    }

    /** createCustomDrumPattern: pattern is None when the argument is falsy;
        the stored value is a copy of the pattern's own entries. */
    method CreateCustomDrumPattern(name: string, pattern: Option<DrumPattern>) returns (ok: bool)
      requires Valid()
      modifies this
      ensures Valid()
      ensures ok <==> name != "" && pattern.Some?
      ensures drumPatterns == if ok then Assign(old(drumPatterns), name, pattern.value) else old(drumPatterns)
      ensures scales == old(scales) && rhythmPatterns == old(rhythmPatterns) && timbres == old(timbres)
    {
      if name == "" || pattern.None? {
        return false;
      }
      AssignDistinct(drumPatterns, name, pattern.value);
      drumPatterns := Assign(drumPatterns, name, pattern.value);
      return true;
    }

    method AddCustomTimbre(objectClass: string, oscillatorType: string) returns (ok: bool)
      requires Valid()
      modifies this
      ensures Valid()
      ensures ok <==> objectClass != "" && oscillatorType != ""
      ensures timbres == if ok then Assign(old(timbres), objectClass, oscillatorType) else old(timbres)
      ensures scales == old(scales) && rhythmPatterns == old(rhythmPatterns) && drumPatterns == old(drumPatterns)
    {
      if objectClass == "" || oscillatorType == "" {
        return false;
      }
      AssignDistinct(timbres, objectClass, oscillatorType);
      timbres := Assign(timbres, objectClass, oscillatorType);
      return true;
    }
  }

  /** Storing a non-empty list under any name keeps a table of non-empty lists
      with distinct keys, and the name then looks up exactly that list. */
  lemma {:induction false} StoreKeepsNonEmpty<T>(t: seq<Entry<seq<T>>>, name: string, l: seq<T>)
    requires Distinct(t) && AllNonEmpty(t) && l != []
    ensures Distinct(Assign(t, name, l)) && AllNonEmpty(Assign(t, name, l))
    ensures Find(Assign(t, name, l), name) == Some(l)
  {
    AssignDistinct(t, name, l);
    FindAssign(t, name, l, name);
    AssignValues(t, name, l);
    var r := Assign(t, name, l);
    forall i | 0 <= i < |r|
      ensures r[i].val != []
    {
      assert r[i] in r;
    }
  }
}
