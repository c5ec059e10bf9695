/** The effects-chain manager (src/audio/effects/effectsChain.js). It links
    audio effect nodes in series and keeps a registry of the chains it built.
    It routes instruments into a chain, tunes or bypasses one effect of a
    chain, and tears a chain down. Audio nodes are handles into a node store
    that records, for each node, the methods it has and its own data
    properties. Every call into the audio library is recorded as an event. */
module Effects {
  import opened Common
  import opened Assoc
  import opened JsValues
  import opened Helpers

  /** A boolean, number or string. */
  type Prim = v: JsValue | v.Bool? || v.Num? || v.Str? witness Bool(false)

  /** A value found under a key of an effects object, a chain or an
      instrument list. */
  datatype Member =
    | Nullish                   // null or undefined
    | Primitive(value: Prim)    // a boolean, number or string
    | Node(h: Handle)           // an object or function: an audio node

  /** Boolean(m). */
  predicate Present(m: Member)
  {
    m.Node? || (m.Primitive? && Truthy(m.value))
  }

  /** What the store knows of one audio node. */
  datatype AudioNode = AudioNode(methods: set<string>, props: seq<Entry<JsValue>>)

  /** An object the store does not know has no methods and no properties. */
  function NodeAt(nodes: map<Handle, AudioNode>, h: Handle): AudioNode
  {
    if h in nodes then nodes[h] else AudioNode({}, [])
  }

  /** typeof m[name] === 'function'. */
  predicate HasMethod(nodes: map<Handle, AudioNode>, m: Member, name: string)
  {
    m.Node? && name in NodeAt(nodes, m.h).methods
  }

  /** A chain object: its identity (what === compares) and its keys in
      order. */
  datatype Chain = Chain(ref: nat, members: seq<Entry<Member>>)

  /** The argument of createChain: anything that is not an object, or an
      object's entries. */
  datatype EffectsArg = NotAnObject | Effects(entries: seq<Entry<Member>>)

  datatype Result<T> = Ok(value: T) | Threw

  /** Calls into the audio library. */
  datatype Event =
    | Connected(from: Handle, to: Member)
    | Disconnected(from: Handle, to: Member)
    | VolumeCreated(h: Handle)
    | SetCalled(h: Handle, settings: seq<Entry<JsValue>>)
    | BypassCalled(h: Handle, bypass: bool)
    | DisposeCalled(h: Handle)

  /** The node made for an empty effects object: new Tone.Volume(0) sent to
      the destination. */
  function ThroughNode(): AudioNode
  {
    AudioNode({"connect", "disconnect", "dispose", "toDestination"}, [])
  }

  // ---------------------------------------------------------------------------
  // createChain
  // ---------------------------------------------------------------------------

  /** The effects createChain links, in order: those that are present and
      have a connect method. */
  function ValidEffects(es: seq<Entry<Member>>, nodes: map<Handle, AudioNode>): (vs: seq<Handle>)
    ensures |vs| <= |es|
  {
    if es == [] then []
    else
      var m := es[|es| - 1].val;
      ValidEffects(es[..|es| - 1], nodes) + (if HasMethod(nodes, m, "connect") then [m.h] else [])
  }

  /** A node is linked exactly when some key of the effects object holds it
      and it has a connect method. */
  lemma {:induction false} ValidEffectsMembers(es: seq<Entry<Member>>, nodes: map<Handle, AudioNode>, h: Handle)
    ensures h in ValidEffects(es, nodes) <==>
              "connect" in NodeAt(nodes, h).methods && exists i :: 0 <= i < |es| && es[i].val == Node(h)
  {
    if es != [] {
      var init := es[..|es| - 1];
      ValidEffectsMembers(init, nodes, h);
      if exists i :: 0 <= i < |init| && init[i].val == Node(h) {
        var i :| 0 <= i < |init| && init[i].val == Node(h);
        assert es[i].val == Node(h);
      }
      if exists i :: 0 <= i < |es| && es[i].val == Node(h) {
        var i :| 0 <= i < |es| && es[i].val == Node(h);
        if i < |es| - 1 {
          assert init[i].val == Node(h);
        }
      }
    }
  }

  /** Linking keeps the order of the effects object: the effects of a
      concatenation are the effects of each part, one after the other. */
  lemma {:induction false} ValidEffectsAppend(a: seq<Entry<Member>>, b: seq<Entry<Member>>, nodes: map<Handle, AudioNode>)
    ensures ValidEffects(a + b, nodes) == ValidEffects(a, nodes) + ValidEffects(b, nodes)
    decreases |b|
  {
    if b == [] {
      assert a + b == a;
    } else {
      var b' := b[..|b| - 1];
      var m := b[|b| - 1].val;
      var tail := if HasMethod(nodes, m, "connect") then [m.h] else [];
      ValidEffectsAppend(a, b', nodes);
      var ab := a + b;
      assert ab[..|ab| - 1] == a + b' && ab[|ab| - 1].val == m;
      assert ValidEffects(ab, nodes) == ValidEffects(a + b', nodes) + tail;
      assert ValidEffects(b, nodes) == ValidEffects(b', nodes) + tail;
    }
  }

  /** The connections made between consecutive linked effects. */
  function Links(vs: seq<Handle>): (ls: seq<Event>)
    ensures |ls| == if vs == [] then 0 else |vs| - 1
    ensures forall i :: 0 <= i < |ls| ==> ls[i] == Connected(vs[i], Node(vs[i + 1]))
  {
    if |vs| <= 1 then []
    else Links(vs[..|vs| - 1]) + [Connected(vs[|vs| - 2], Node(vs[|vs| - 1]))]
  }

  function FirstOr(vs: seq<Handle>): Member
  {
    if vs == [] then Nullish else Node(vs[0])
  }

  function LastOr(vs: seq<Handle>): Member
  {
    if vs == [] then Nullish else Node(vs[|vs| - 1])
  }

  /** { ...effects, input, output }: a key the effects object already has
      keeps its place and takes the new value. */
  function ChainMembers(es: seq<Entry<Member>>, vs: seq<Handle>): seq<Entry<Member>>
  {
    Assign(Assign(es, "input", FirstOr(vs)), "output", LastOr(vs))
  }

  /** A chain's input is its first linked effect and its output its last
      (null when nothing was linked). Every other key holds what the effects
      object held there. */
  lemma ChainEnds(es: seq<Entry<Member>>, vs: seq<Handle>, k: string)
    ensures Find(ChainMembers(es, vs), "input") == Some(if vs == [] then Nullish else Node(vs[0]))
    ensures Find(ChainMembers(es, vs), "output") == Some(if vs == [] then Nullish else Node(vs[|vs| - 1]))
    ensures k != "input" && k != "output" ==> Find(ChainMembers(es, vs), k) == Find(es, k)
    ensures Distinct(es) ==> Distinct(ChainMembers(es, vs))
  {
    var once := Assign(es, "input", FirstOr(vs));
    FindAssign(es, "input", FirstOr(vs), "input");
    FindAssign(once, "output", LastOr(vs), "input");
    FindAssign(once, "output", LastOr(vs), "output");
    FindAssign(es, "input", FirstOr(vs), k);
    FindAssign(once, "output", LastOr(vs), k);
    if Distinct(es) {
      AssignDistinct(es, "input", FirstOr(vs));
      AssignDistinct(once, "output", LastOr(vs));
    }
  }

  /** createChain's loop: skips missing effects and effects without connect,
      connects each remaining effect to the next, and remembers the first
      and the last. */
  /** One more key of the effects object: its value is linked when it has
      connect. */
  lemma ValidEffectsStep(es: seq<Entry<Member>>, nodes: map<Handle, AudioNode>, i: nat)
    requires i < |es|
    ensures ValidEffects(es[..i + 1], nodes) == ValidEffects(es[..i], nodes)
              + (if HasMethod(nodes, es[i].val, "connect") then [es[i].val.h] else [])
  {
    assert es[..i + 1][..i] == es[..i];
  }

  /** Linking one more effect: it becomes the last, and is connected from the
      previous last. */
  lemma LinkOne(vs: seq<Handle>, h: Handle)
    ensures FirstOr(vs + [h]) == if vs == [] then Node(h) else FirstOr(vs)
    ensures LastOr(vs + [h]) == Node(h)
    ensures Links(vs + [h]) == if vs == [] then [] else Links(vs) + [Connected(vs[|vs| - 1], Node(h))]
  {
    assert (vs + [h])[..|vs|] == vs;
  }

  method LinkEffects(es: seq<Entry<Member>>, nodes: map<Handle, AudioNode>)
    returns (first: Member, previous: Member, links: seq<Event>)
    ensures first == FirstOr(ValidEffects(es, nodes))
    ensures previous == LastOr(ValidEffects(es, nodes))
    ensures links == Links(ValidEffects(es, nodes))
  {
    first, previous, links := Nullish, Nullish, [];
    for i := 0 to |es|
      invariant first == FirstOr(ValidEffects(es[..i], nodes))
      invariant previous == LastOr(ValidEffects(es[..i], nodes))
      invariant links == Links(ValidEffects(es[..i], nodes))
    {
      var effect := es[i].val;
      ghost var vs := ValidEffects(es[..i], nodes);
      ValidEffectsStep(es, nodes, i);
      if !Present(effect) || !HasMethod(nodes, effect, "connect") {
        assert vs + [] == vs;
        continue;
      }
      LinkOne(vs, effect.h);
      if first.Nullish? {
        first := effect;
      }
      if previous.Node? {
        links := links + [Connected(previous.h, effect)];
      }
      previous := effect;
    }
    assert es[..|es|] == es;
  }

  // ---------------------------------------------------------------------------
  // connectInstruments / disconnectInstruments
  // ---------------------------------------------------------------------------

  /** The instruments argument: an array, or a non-null object, gives its
      values in order; null is an object whose values cannot be taken; any
      other value is a single instrument. */
  datatype Instruments = Listed(items: seq<Member>) | NullObject | Single(item: Member)

  /** What connecting (or disconnecting) one instrument calls. */
  function RouteOne(nodes: map<Handle, AudioNode>, m: Member, connect: bool, to: Member): seq<Event>
  {
    if connect then
      (if HasMethod(nodes, m, "connect") then [Connected(m.h, to)] else [])
    else
      (if HasMethod(nodes, m, "disconnect") then [Disconnected(m.h, to)] else [])
  }

  /** forEach over the instruments. Reading a method of null or undefined
      throws, which ends the loop; threw says whether that happened. */
  function Routed(nodes: map<Handle, AudioNode>, items: seq<Member>, connect: bool, to: Member)
    : (r: (seq<Event>, bool))
  {
    if items == [] then ([], false)
    else if items[0].Nullish? then ([], true)
    else
      var rest := Routed(nodes, items[1..], connect, to);
      (RouteOne(nodes, items[0], connect, to) + rest.0, rest.1)
  }

  /** Routing throws exactly when some instrument is null or undefined; every
      call it makes goes from an instrument that has the method to the
      chain's input; with no null instrument, every instrument that has the
      method is routed. */
  lemma {:induction false} RoutedCalls(nodes: map<Handle, AudioNode>, items: seq<Member>, connect: bool, to: Member)
    ensures Routed(nodes, items, connect, to).1 <==> Nullish in items
    ensures forall e :: e in Routed(nodes, items, connect, to).0 ==>
              if connect then e.Connected? && e.to == to && HasMethod(nodes, Node(e.from), "connect")
              else e.Disconnected? && e.to == to && HasMethod(nodes, Node(e.from), "disconnect")
    ensures Nullish !in items ==>
              forall h :: Node(h) in items && HasMethod(nodes, Node(h), if connect then "connect" else "disconnect") ==>
                (if connect then Connected(h, to) else Disconnected(h, to)) in Routed(nodes, items, connect, to).0
  {
    if items != [] {
      assert items == [items[0]] + items[1..];
      if !items[0].Nullish? {
        RoutedCalls(nodes, items[1..], connect, to);
      }
    }
  }

  lemma RoutedStep(nodes: map<Handle, AudioNode>, items: seq<Member>, i: nat, connect: bool, to: Member)
    requires i < |items|
    ensures items[i].Nullish? ==> Routed(nodes, items[i..], connect, to) == ([], true)
    ensures !items[i].Nullish? ==>
              Routed(nodes, items[i..], connect, to).0
                == RouteOne(nodes, items[i], connect, to) + Routed(nodes, items[i + 1..], connect, to).0
              && Routed(nodes, items[i..], connect, to).1 == Routed(nodes, items[i + 1..], connect, to).1
  {
    assert items[i..][1..] == items[i + 1..] && items[i..][0] == items[i];
  }

  lemma RouteAdvance(nodes: map<Handle, AudioNode>, items: seq<Member>, i: nat, connect: bool, to: Member,
                      calls: seq<Event>, total: (seq<Event>, bool))
    requires i < |items| && !items[i].Nullish?
    requires total.0 == calls + Routed(nodes, items[i..], connect, to).0
    requires total.1 == Routed(nodes, items[i..], connect, to).1
    ensures total.0 == (calls + RouteOne(nodes, items[i], connect, to)) + Routed(nodes, items[i + 1..], connect, to).0
    ensures total.1 == Routed(nodes, items[i + 1..], connect, to).1
  {
    RoutedStep(nodes, items, i, connect, to);
    var step, rest := RouteOne(nodes, items[i], connect, to), Routed(nodes, items[i + 1..], connect, to).0;
    assert calls + (step + rest) == (calls + step) + rest;
  }

  /** The forEach loop of connectInstruments and disconnectInstruments. */
  method RouteEach(nodes: map<Handle, AudioNode>, items: seq<Member>, connect: bool, to: Member)
    returns (calls: seq<Event>, threw: bool)
    ensures calls == Routed(nodes, items, connect, to).0
    ensures threw == Routed(nodes, items, connect, to).1
  {
    ghost var total := Routed(nodes, items, connect, to);
    calls, threw := [], false;
    var i := 0;
    assert items[0..] == items;
    while i < |items|
      invariant 0 <= i <= |items|
      invariant total.0 == calls + Routed(nodes, items[i..], connect, to).0
      invariant total.1 == Routed(nodes, items[i..], connect, to).1
    {
      if items[i].Nullish? {
        RoutedStep(nodes, items, i, connect, to);
        assert calls + [] == calls;
        return calls, true;
      }
      RouteAdvance(nodes, items, i, connect, to, calls, total);
      calls := calls + RouteOne(nodes, items[i], connect, to);
      i := i + 1;
    }
    assert items[i..] == [] && calls + [] == calls;
  }

  // ---------------------------------------------------------------------------
  // updateEffect
  // ---------------------------------------------------------------------------

  /** One [key, value] entry of updateEffect on an effect without a set
      method. A dotted key writes child into the parent property when that
      is truthy; a plain key is written only when effect[key] is not
      undefined: an own property other than undefined, or one of the node's
      methods, which the new own property then replaces. None: the write
      throws, because the parent is a primitive and the module runs in
      strict mode. */
  function ApplySetting(node: AudioNode, key: string, value: JsValue): Option<AudioNode>
  {
    if '.' in key then
      SplitCount(key, '.');
      var parts := Split(key, '.');
      var parent := Get(Obj(node.props), parts[0]);
      if !Truthy(parent) then Some(node)
      else if HasProps(parent) then Some(node.(props := Assign(node.props, parts[0], Put(parent, parts[1], value))))
      else None
    else if Get(Obj(node.props), key) != Undefined || key in node.methods then
      Some(AudioNode(node.methods - {key}, Assign(node.props, key, value)))
    else Some(node)
  }

  /** Object.entries(settings).forEach(...): the effect after the loop, and
      whether a write threw (which ends the loop). */
  function ApplySettings(node: AudioNode, settings: seq<Entry<JsValue>>): (AudioNode, bool)
    decreases |settings|
  {
    if settings == [] then (node, false)
    else match ApplySetting(node, settings[0].key, settings[0].val)
      case None => (node, true)
      case Some(n) => ApplySettings(n, settings[1..])
  }

  /** The names of an effect: its own keys and its methods. */
  function Names(node: AudioNode): set<string>
  {
    (set k | k in Keys(node.props)) + node.methods
  }

  /** A setting never gives the effect a new name: it writes keys the
      effect already has, and a method it writes becomes an own property. */
  lemma ApplySettingKeys(node: AudioNode, key: string, value: JsValue)
    ensures var r := ApplySetting(node, key, value);
            r.Some? ==>
              && Keys(r.value.props)
                   == (if '.' !in key && key in node.methods && !HasKey(node.props, key)
                       then Keys(node.props) + [key] else Keys(node.props))
              && Names(r.value) == Names(node)
              && r.value.methods == if '.' in key then node.methods else node.methods - {key}
  {
    if '.' in key {
      SplitCount(key, '.');
      var parts := Split(key, '.');
      var parent := Get(Obj(node.props), parts[0]);
      if Truthy(parent) && HasProps(parent) {
        assert HasKey(node.props, parts[0]);
        AssignKeys(node.props, parts[0], Put(parent, parts[1], value));
      }
    } else if Get(Obj(node.props), key) != Undefined || key in node.methods {
      assert HasKey(node.props, key) || key in node.methods;
      AssignKeys(node.props, key, value);
    }
  }

  /** A plain key the effect has, as a value other than undefined or as a
      method, takes the new value and no other key changes; any other plain
      key changes nothing. A dotted key whose parent is an object sets the
      child inside that parent. */
  lemma ApplySettingEffect(node: AudioNode, key: string, value: JsValue, k: string)
    ensures '.' !in key && Get(Obj(node.props), key) == Undefined && key !in node.methods ==>
              ApplySetting(node, key, value) == Some(node)
    ensures '.' !in key && (Get(Obj(node.props), key) != Undefined || key in node.methods) ==>
              ApplySetting(node, key, value).Some?
              && Get(Obj(ApplySetting(node, key, value).value.props), k) == (if k == key then value else Get(Obj(node.props), k))
              && key !in ApplySetting(node, key, value).value.methods
    ensures '.' in key ==>
              var parts := Split(key, '.');
              var parent := Get(Obj(node.props), parts[0]);
              HasProps(parent) ==>
                |parts| >= 2 && ApplySetting(node, key, value).Some?
                && HasProps(Get(Obj(ApplySetting(node, key, value).value.props), parts[0]))
                && Get(Get(Obj(ApplySetting(node, key, value).value.props), parts[0]), parts[1]) == value
  {
    if '.' in key {
      SplitCount(key, '.');
      var parts := Split(key, '.');
      var parent := Get(Obj(node.props), parts[0]);
      if HasProps(parent) {
        var put := Put(parent, parts[1], value);
        FindAssign(node.props, parts[0], put, parts[0]);
        GetPut(parent, parts[1], value, parts[1]);
      }
    } else {
      FindAssign(node.props, key, value, k);
    }
  }

  /** After the whole loop the effect has exactly the names it had, keeps
      every own key in its place, and has lost only the methods the settings
      replaced. */
  lemma {:induction false} ApplySettingsKeys(node: AudioNode, settings: seq<Entry<JsValue>>)
    ensures Names(ApplySettings(node, settings).0) == Names(node)
    ensures Keys(node.props) <= Keys(ApplySettings(node, settings).0.props)
    ensures ApplySettings(node, settings).0.methods <= node.methods
    decreases |settings|
  {
    if settings != [] {
      ApplySettingKeys(node, settings[0].key, settings[0].val);
      var step := ApplySetting(node, settings[0].key, settings[0].val);
      if step.Some? {
        ApplySettingsKeys(step.value, settings[1..]);
      }
    }
  }

  /** Whether one [key, value] entry of updateEffect writes to a primitive
      effect p, which throws a TypeError in strict mode: a dotted key whose
      parent p[parent] is truthy, or a plain key with p[key] !== undefined.
      Any other entry does nothing. */
  predicate WritesPrimitive(p: Prim, key: string)
  {
    if '.' in key then Truthy(Get(p, Split(key, '.')[0])) else Get(p, key) != Undefined
  }

  /** A number or boolean has no own property, so no entry writes to it; a
      string has its length and its index keys, and writing either throws. */
  lemma WritesPrimitiveCases(p: Prim, key: string, i: nat)
    ensures !p.Str? ==> !WritesPrimitive(p, key)
    ensures p.Str? ==> WritesPrimitive(p, "length")
    ensures p.Str? && i < |p.s| ==> WritesPrimitive(p, NatToString(i))
  {
    if p.Str? {
      StringOwnProps(p.s, i);
      DecimalRoundTrip(i);
      assert '.' !in NatToString(i) by {
        forall k | 0 <= k < |NatToString(i)|
          ensures NatToString(i)[k] != '.'
        {
          assert IsDigit(NatToString(i)[k]);
        }
      }
    }
  }

  /** The loop of updateEffect over the settings of a primitive effect: it
      throws at the first entry that writes, and nothing else happens. */
  method TrySettingsOnPrimitive(p: Prim, settings: seq<Entry<JsValue>>) returns (threw: bool)
    ensures threw <==> exists i :: 0 <= i < |settings| && WritesPrimitive(p, settings[i].key)
  {
    var i := 0;
    while i < |settings|
      invariant 0 <= i <= |settings|
      invariant forall j :: 0 <= j < i ==> !WritesPrimitive(p, settings[j].key)
    {
      if WritesPrimitive(p, settings[i].key) {
        return true;
      }
      i := i + 1;
    }
    return false;
  }

  /** The loop of updateEffect over the settings entries. */
  method AssignSettings(node: AudioNode, settings: seq<Entry<JsValue>>)
    returns (result: AudioNode, threw: bool)
    ensures (result, threw) == ApplySettings(node, settings)
  {
    result := node;
    var i := 0;
    while i < |settings|
      invariant 0 <= i <= |settings|
      invariant ApplySettings(node, settings) == ApplySettings(result, settings[i..])
    {
      assert settings[i..][1..] == settings[i + 1..];
      var step := ApplySetting(result, settings[i].key, settings[i].val);
      if step.None? {
        return result, true;
      }
      result := step.value;
      i := i + 1;
    }
    assert settings[i..] == [];
    threw := false;
  }

  // ---------------------------------------------------------------------------
  // createBypassToggle
  // ---------------------------------------------------------------------------

  /** The function createBypassToggle returns: a no-op when the effect is
      missing, otherwise the effect and the wet value it had at creation
      (Null when it had no truthy wet). */
  datatype Toggle = NoOp | Toggle(effect: Member, initialWet: JsValue)

  /** effect.wet. */
  function WetOf(nodes: map<Handle, AudioNode>, m: Member): JsValue
  {
    if m.Node? then Get(Obj(NodeAt(nodes, m.h).props), "wet") else Undefined
  }

  /** What one call of the toggle does. */
  datatype ToggleStep = WriteWet(h: Handle, value: JsValue) | CallBypass(h: Handle) | WetIsPrimitive | Nothing

  function ToggleStepFor(nodes: map<Handle, AudioNode>, t: Toggle, bypass: bool): ToggleStep
  {
    if t.NoOp? then Nothing
    else
      var wet := WetOf(nodes, t.effect);
      if Truthy(wet) && t.initialWet != Null then
        if HasProps(wet) then WriteWet(t.effect.h, if bypass then Num(0.0) else t.initialWet)
        else WetIsPrimitive
      else if HasMethod(nodes, t.effect, "bypass") then CallBypass(t.effect.h)
      else if Truthy(wet) then
        if HasProps(wet) then WriteWet(t.effect.h, if bypass then Num(0.0) else Num(1.0))
        else WetIsPrimitive
      else Nothing
  }

  /** effect.wet.value = v. */
  function SetWetValue(nodes: map<Handle, AudioNode>, h: Handle, v: JsValue): map<Handle, AudioNode>
    requires HasProps(WetOf(nodes, Node(h)))
  {
    var n := NodeAt(nodes, h);
    nodes[h := AudioNode(n.methods, Assign(n.props, "wet", Put(WetOf(nodes, Node(h)), "value", v)))]
  }

  function Toggled(nodes: map<Handle, AudioNode>, t: Toggle, bypass: bool): map<Handle, AudioNode>
  {
    match ToggleStepFor(nodes, t, bypass)
    case WriteWet(h, v) => SetWetValue(nodes, h, v)
    case _ => nodes
  }

  /** Writing wet.value keeps wet an object that holds the value written. */
  lemma SetWetValueReads(nodes: map<Handle, AudioNode>, h: Handle, v: JsValue)
    requires HasProps(WetOf(nodes, Node(h)))
    ensures HasProps(WetOf(SetWetValue(nodes, h, v), Node(h)))
    ensures Get(WetOf(SetWetValue(nodes, h, v), Node(h)), "value") == v
    ensures NodeAt(SetWetValue(nodes, h, v), h).methods == NodeAt(nodes, h).methods
  {
    var n := NodeAt(nodes, h);
    var wet := WetOf(nodes, Node(h));
    FindAssign(n.props, "wet", Put(wet, "value", v), "wet");
    GetPut(wet, "value", v, "value");
  }

  /** A toggle made while the effect's wet was an object with a non-null
      value: bypassing sets wet.value to 0, and un-bypassing afterwards puts
      the value captured at creation back. */
  lemma BypassRoundTrip(nodes: map<Handle, AudioNode>, h: Handle)
    requires HasProps(WetOf(nodes, Node(h)))
    requires Get(WetOf(nodes, Node(h)), "value") != Null
    ensures var t := Toggle(Node(h), Get(WetOf(nodes, Node(h)), "value"));
      var off := Toggled(nodes, t, true);
      Get(WetOf(off, Node(h)), "value") == Num(0.0)
      && Get(WetOf(Toggled(off, t, false), Node(h)), "value") == Get(WetOf(nodes, Node(h)), "value")
  {
    var init := Get(WetOf(nodes, Node(h)), "value");
    ToggleWrites(nodes, h, init, true);
    SetWetValueReads(nodes, h, Num(0.0));
    var off := SetWetValue(nodes, h, Num(0.0));
    ToggleWrites(off, h, init, false);
    SetWetValueReads(off, h, init);
  }

  /** With an object wet and a captured value, a toggle call writes wet.value. */
  lemma ToggleWrites(nodes: map<Handle, AudioNode>, h: Handle, init: JsValue, bypass: bool)
    requires HasProps(WetOf(nodes, Node(h))) && init != Null
    ensures Toggled(nodes, Toggle(Node(h), init), bypass)
            == SetWetValue(nodes, h, if bypass then Num(0.0) else init)
  {
    assert Truthy(WetOf(nodes, Node(h)));
  }

  /** Without a usable wet captured at creation, the toggle calls the
      effect's own bypass method; failing that it writes 0 or 1 into an
      object wet; a missing effect gives a toggle that does nothing. */
  lemma BypassFallbacks(nodes: map<Handle, AudioNode>, t: Toggle, bypass: bool)
    ensures t.NoOp? ==> ToggleStepFor(nodes, t, bypass) == Nothing
    ensures t.Toggle? && t.initialWet == Null && HasMethod(nodes, t.effect, "bypass") ==>
              ToggleStepFor(nodes, t, bypass) == CallBypass(t.effect.h)
    ensures t.Toggle? && t.effect.Node? && t.initialWet == Null && !HasMethod(nodes, t.effect, "bypass")
            && HasProps(WetOf(nodes, t.effect)) ==>
              ToggleStepFor(nodes, t, bypass) == WriteWet(t.effect.h, if bypass then Num(0.0) else Num(1.0))
  {
  }

  // ---------------------------------------------------------------------------
  // disposeChain
  // ---------------------------------------------------------------------------

  /** dispose() on every value of the chain that has that method, in key
      order. input and output are values too. */
  function DisposeCalls(members: seq<Entry<Member>>, nodes: map<Handle, AudioNode>): seq<Event>
  {
    if members == [] then []
    else
      var m := members[|members| - 1].val;
      DisposeCalls(members[..|members| - 1], nodes) + (if HasMethod(nodes, m, "dispose") then [DisposeCalled(m.h)] else [])
  }

  /** Exactly the values that have dispose are disposed. */
  lemma {:induction false} DisposeCallsExactly(members: seq<Entry<Member>>, nodes: map<Handle, AudioNode>, e: Event)
    ensures e in DisposeCalls(members, nodes) <==>
              e.DisposeCalled? && "dispose" in NodeAt(nodes, e.h).methods
              && exists i :: 0 <= i < |members| && members[i].val == Node(e.h)
  {
    if members != [] {
      var init := members[..|members| - 1];
      DisposeCallsExactly(init, nodes, e);
      if e.DisposeCalled? {
        if exists i :: 0 <= i < |init| && init[i].val == Node(e.h) {
          var i :| 0 <= i < |init| && init[i].val == Node(e.h);
          assert members[i].val == Node(e.h);
        }
        if exists i :: 0 <= i < |members| && members[i].val == Node(e.h) {
          var i :| 0 <= i < |members| && members[i].val == Node(e.h);
          if i < |members| - 1 {
            assert init[i].val == Node(e.h);
          }
        }
      }
    }
  }

  /** The loop of disposeChain over Object.values(chain). */
  method DisposeEach(members: seq<Entry<Member>>, nodes: map<Handle, AudioNode>) returns (calls: seq<Event>)
    ensures calls == DisposeCalls(members, nodes)
  {
    calls := [];
    for i := 0 to |members|
      invariant calls == DisposeCalls(members[..i], nodes)
    {
      assert members[..i + 1][..i] == members[..i];
      var effect := members[i].val;
      if Present(effect) && HasMethod(nodes, effect, "dispose") {
        calls := calls + [DisposeCalled(effect.h)];
      }
    }
    assert members[..|members|] == members;
  }

  /** The position of the first registry entry holding the chain with this
      identity. */
  function FirstWithRef(chains: seq<Entry<Chain>>, ref: nat): (r: Option<nat>)
    ensures r.Some? ==> r.value < |chains| && chains[r.value].val.ref == ref
                        && forall j :: 0 <= j < r.value ==> chains[j].val.ref != ref
    ensures r.None? ==> forall j :: 0 <= j < |chains| ==> chains[j].val.ref != ref
  {
    if chains == [] then None
    else if chains[0].val.ref == ref then Some(0)
    else
      match FirstWithRef(chains[1..], ref)
      case None => None
      case Some(i) => Some(i + 1)
  }

  /** The effect a chain holds under a name (Nullish when there is no chain
      or no such key). */
  function EffectOf(chain: Option<Chain>, name: string): Member
  {
    if chain.None? then Nullish
    else match Find(chain.value.members, name)
      case Some(m) => m
      case None => Nullish
  }

  class EffectsChain {
    /** this.chains: the chains built so far, by id, in insertion order. */
    var chains: seq<Entry<Chain>>
    /** The audio nodes that effects and instruments refer to. */
    var nodes: map<Handle, AudioNode>
    /** The identity the next chain object gets. */
    var nextRef: nat
    var events: seq<Event>

    ghost predicate Valid()
      reads this
    {
      Distinct(chains)
    }

    constructor(world: map<Handle, AudioNode>)
      ensures Valid()
      ensures chains == [] && nodes == world && events == [] && nextRef == 0
    {
      chains := [];
      nodes := world;
      nextRef := 0;
      events := [];
    }

    /** createChain. id stands for chain_<Date.now()>_<random>, volume for the
        node a pass-through would create. Not an object: throws. Empty: a
        fresh pass-through volume node, not registered. Otherwise the valid
        effects are linked in order, and the chain (the effects plus input and
        output) is stored under id. An id already in use is overwritten. */
    method CreateChain(effects: EffectsArg, id: string, volume: Handle) returns (r: Result<Chain>)
      requires Valid() && volume !in nodes
      modifies this
      ensures Valid()
      ensures effects.NotAnObject? ==>
                r == Threw && chains == old(chains) && nodes == old(nodes)
                && events == old(events) && nextRef == old(nextRef)
      ensures effects.Effects? && effects.entries == [] ==>
                r == Ok(Chain(old(nextRef), [Entry("_throughNode", Node(volume))]))
                && chains == old(chains) && nodes == old(nodes)[volume := ThroughNode()]
                && events == old(events) + [VolumeCreated(volume)] && nextRef == old(nextRef) + 1
      ensures effects.Effects? && effects.entries != [] ==>
                var vs := ValidEffects(effects.entries, old(nodes));
                r == Ok(Chain(old(nextRef), ChainMembers(effects.entries, vs)))
                && chains == Assign(old(chains), id, r.value) && nodes == old(nodes)
                && events == old(events) + Links(vs) && nextRef == old(nextRef) + 1
    {
      if effects.NotAnObject? {
        return Threw;
      }
      if effects.entries == [] {
        nodes := nodes[volume := ThroughNode()];
        events := events + [VolumeCreated(volume)];
        r := Ok(Chain(nextRef, [Entry("_throughNode", Node(volume))]));
        nextRef := nextRef + 1;
        return;
      }
      var first, previous, links := LinkEffects(effects.entries, nodes);
      events := events + links;
      var output := if Present(previous) then previous else first;
      var chain := Chain(nextRef, Assign(Assign(effects.entries, "input", first), "output", output));
      nextRef := nextRef + 1;
      AssignDistinct(chains, id, chain);
      chains := Assign(chains, id, chain);
      r := Ok(chain);
    }

    /** connectInstruments: nothing without a chain that has an input;
        otherwise each instrument with a connect method is connected to the
        input, in order, until a null or undefined instrument throws. */
    method ConnectInstruments(instruments: Instruments, chain: Option<Chain>) returns (threw: bool)
      modifies this
      ensures chains == old(chains) && nodes == old(nodes) && nextRef == old(nextRef)
      ensures !Present(EffectOf(chain, "input")) ==> events == old(events) && !threw
      ensures Present(EffectOf(chain, "input")) ==>
                var input := EffectOf(chain, "input");
                match instruments
                case Listed(items) =>
                  var (calls, t) := Routed(old(nodes), items, true, input);
                  events == old(events) + calls && threw == t
                case NullObject => events == old(events) && threw
                case Single(item) =>
                  var (calls, t) := Routed(old(nodes), [item], true, input);
                  events == old(events) + calls && threw == t
    {
      var input := EffectOf(chain, "input");
      if !Present(input) {
        return false;
      }
      var calls;
      match instruments {
        case Listed(items) =>
          calls, threw := RouteEach(nodes, items, true, input);
        case NullObject =>
          return true;
        case Single(item) =>
          calls, threw := RouteEach(nodes, [item], true, input);
      }
      events := events + calls;
    }

    /** disconnectInstruments: the same walk, disconnecting. */
    method DisconnectInstruments(instruments: Instruments, chain: Option<Chain>) returns (threw: bool)
      modifies this
      ensures chains == old(chains) && nodes == old(nodes) && nextRef == old(nextRef)
      ensures !Present(EffectOf(chain, "input")) ==> events == old(events) && !threw
      ensures Present(EffectOf(chain, "input")) ==>
                var input := EffectOf(chain, "input");
                match instruments
                case Listed(items) =>
                  var (calls, t) := Routed(old(nodes), items, false, input);
                  events == old(events) + calls && threw == t
                case NullObject => events == old(events) && threw
                case Single(item) =>
                  var (calls, t) := Routed(old(nodes), [item], false, input);
                  events == old(events) + calls && threw == t
    {
      var input := EffectOf(chain, "input");
      if !Present(input) {
        return false;
      }
      var calls;
      match instruments {
        case Listed(items) =>
          calls, threw := RouteEach(nodes, items, false, input);
        case NullObject =>
          return true;
        case Single(item) =>
          calls, threw := RouteEach(nodes, [item], false, input);
      }
      events := events + calls;
    }

    /** updateEffect: nothing when the chain lacks the effect; an effect with
        a set method gets set(settings); otherwise the settings are written
        one by one into its properties until a write throws. On a primitive
        effect (a string that a chain may hold), the first write throws. */
    method UpdateEffect(chain: Option<Chain>, effectName: string, settings: seq<Entry<JsValue>>)
      returns (threw: bool)
      modifies this
      ensures chains == old(chains) && nextRef == old(nextRef)
      ensures var effect := EffectOf(chain, effectName);
        if !Present(effect) then
          nodes == old(nodes) && events == old(events) && !threw
        else if HasMethod(old(nodes), effect, "set") then
          nodes == old(nodes) && events == old(events) + [SetCalled(effect.h, settings)] && !threw
        else if effect.Primitive? then
          nodes == old(nodes) && events == old(events)
          && (threw <==> exists i :: 0 <= i < |settings| && WritesPrimitive(effect.value, settings[i].key))
        else
          var n := NodeAt(old(nodes), effect.h);
          var (n', t) := ApplySettings(n, settings);
          events == old(events) && threw == t
          && nodes == if effect.h in old(nodes) then old(nodes)[effect.h := n'] else old(nodes)
    {
      var effect := EffectOf(chain, effectName);
      if !Present(effect) {
        return false;
      }
      if HasMethod(nodes, effect, "set") {
        events := events + [SetCalled(effect.h, settings)];
        return false;
      }
      if effect.Primitive? {
        threw := TrySettingsOnPrimitive(effect.value, settings);
        return;
      }
      var n := NodeAt(nodes, effect.h);
      var n';
      n', threw := AssignSettings(n, settings);
      if effect.h in nodes {
        nodes := nodes[effect.h := n'];
      }
    }

    /** createBypassToggle: the effect and the wet value it has now. */
    function CreateBypassToggle(chain: Option<Chain>, effectName: string): (t: Toggle)
      reads this
      ensures t.NoOp? <==> !Present(EffectOf(chain, effectName))
      ensures t.Toggle? ==> t.effect == EffectOf(chain, effectName)
      ensures t.Toggle? && !Truthy(WetOf(nodes, t.effect)) ==> t.initialWet == Null
    {
      var effect := EffectOf(chain, effectName);
      if !Present(effect) then NoOp
      else
        var wet := WetOf(nodes, effect);
        Toggle(effect, if Truthy(wet) then Get(wet, "value") else Null)
    }

    /** Calling the toggle with bypass. threw: wet is a truthy primitive, so
        writing wet.value throws in strict mode. */
    method ApplyToggle(t: Toggle, bypass: bool) returns (threw: bool)
      modifies this
      ensures chains == old(chains) && nextRef == old(nextRef)
      ensures nodes == Toggled(old(nodes), t, bypass)
      ensures events == old(events) + match ToggleStepFor(old(nodes), t, bypass)
                                      case CallBypass(h) => [BypassCalled(h, bypass)]
                                      case _ => []
      ensures threw <==> ToggleStepFor(old(nodes), t, bypass) == WetIsPrimitive
    {
      if t.NoOp? {
        return false;
      }
      var wet := WetOf(nodes, t.effect);
      threw := false;
      if Truthy(wet) && t.initialWet != Null {
        if !HasProps(wet) {
          return true;
        }
        nodes := SetWetValue(nodes, t.effect.h, if bypass then Num(0.0) else t.initialWet);
      } else if HasMethod(nodes, t.effect, "bypass") {
        events := events + [BypassCalled(t.effect.h, bypass)];
      } else if Truthy(wet) {
        if !HasProps(wet) {
          return true;
        }
        nodes := SetWetValue(nodes, t.effect.h, if bypass then Num(0.0) else Num(1.0));
      }
    }

    /** disposeChain: every value of the chain that has dispose is disposed,
        then the first registry entry holding this very chain is deleted; the
        other entries stay. */
    method DisposeChain(chain: Option<Chain>)
      requires Valid()
      modifies this
      ensures Valid()
      ensures nodes == old(nodes) && nextRef == old(nextRef)
      ensures chain.None? ==> chains == old(chains) && events == old(events)
      ensures chain.Some? ==>
                events == old(events) + DisposeCalls(chain.value.members, old(nodes))
                && match FirstWithRef(old(chains), chain.value.ref)
                   case None => chains == old(chains)
                   case Some(i) => forall k :: Find(chains, k) == if k == old(chains)[i].key then None else Find(old(chains), k)
    {
      if chain.None? {
        return;
      }
      var calls := DisposeEach(chain.value.members, nodes);
      events := events + calls;
      var i := 0;
      while i < |chains|
        invariant 0 <= i <= |chains| && chains == old(chains)
        invariant forall j :: 0 <= j < i ==> chains[j].val.ref != chain.value.ref
      {
        if chains[i].val.ref == chain.value.ref {
          var key := chains[i].key;
          assert FirstWithRef(chains, chain.value.ref) == Some(i);
          RemoveEntries(chains, key);
          forall k
            ensures Find(Remove(chains, key), k) == if k == key then None else Find(chains, k)
          {
            FindRemove(chains, key, k);
          }
          chains := Remove(chains, key);
          return;
        }
        i := i + 1;
      }
    }
  }
}
