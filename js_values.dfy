/** The JavaScript values that the settings and parameter objects of the
    audio code hold, with the property access and truthiness rules the code
    relies on. Objects are trees of own properties in insertion order; a
    string has its own length and index properties; properties inherited
    from a prototype (Object.prototype, String.prototype, a class's methods)
    are not modelled. */
module JsValues {
  import opened Common
  import opened Assoc
  import opened Helpers

  datatype JsValue =
    | Undefined
    | Null
    | Bool(b: bool)
    | Num(n: real)
    | Str(s: string)
    | Obj(props: seq<Entry<JsValue>>)
    /** A function object: typeof is 'function', and it can carry properties. */
    | Func(id: nat, fprops: seq<Entry<JsValue>>)

  /** Boolean(v). NaN is not among the modelled numbers. */
  predicate Truthy(v: JsValue)
  {
    match v
    case Undefined => false
    case Null => false
    case Bool(b) => b
    case Num(n) => n != 0.0
    case Str(s) => s != ""
    case Obj(_) => true
    case Func(_, _) => true
  }

  /** typeof v === 'object' (which includes null). */
  predicate TypeofObject(v: JsValue)
  {
    v.Obj? || v.Null?
  }

  /** A value that has properties of its own and accepts new ones. */
  predicate HasProps(v: JsValue)
  {
    v.Obj? || v.Func?
  }

  function Props(v: JsValue): seq<Entry<JsValue>>
    requires HasProps(v)
  {
    if v.Obj? then v.props else v.fprops
  }

  function WithProps(v: JsValue, ps: seq<Entry<JsValue>>): (r: JsValue)
    requires HasProps(v)
    ensures HasProps(r) && Props(r) == ps
    ensures r.Obj? == v.Obj? && TypeofObject(r) == TypeofObject(v)
  {
    if v.Obj? then Obj(ps) else Func(v.id, ps)
  }

  /** k in v, for a value that has properties. */
  predicate Has(v: JsValue, k: string)
    requires HasProps(v)
  {
    HasKey(Props(v), k)
  }

  /** A canonical array index key: decimal digits with no leading zero. */
  predicate IsIndexKey(k: string)
  {
    |k| > 0 && (forall i :: 0 <= i < |k| ==> IsDigit(k[i])) && (k[0] == '0' ==> |k| == 1)
  }

  /** v[k] on anything but null and undefined. An object or function gives
      its own property; a string gives its length and its one-character
      strings at index keys; every other own property is undefined. */
  function Get(v: JsValue, k: string): JsValue
  {
    if HasProps(v) then
      match Find(Props(v), k)
      case Some(x) => x
      case None => Undefined
    else if v.Str? then
      if k == "length" then Num(|v.s| as real)
      else if IsIndexKey(k) && 0 <= DecValue(k) < |v.s| then Str([v.s[DecValue(k)]])
      else Undefined
    else Undefined
  }

  /** The decimal rendering of a number is an index key, so s[i] of a string
      is its i-th character, and s.length its length. */
  lemma StringOwnProps(s: string, i: nat)
    ensures Get(Str(s), "length") == Num(|s| as real)
    ensures i < |s| ==> Get(Str(s), NatToString(i)) == Str([s[i]])
    ensures i >= |s| ==> Get(Str(s), NatToString(i)) == Undefined
  {
    DecimalRoundTrip(i);
    LeadingDigit(i);
    assert NatToString(i) != "length" by {
      assert IsDigit(NatToString(i)[0]);
    }
  }

  /** The decimal rendering starts with 0 only for 0 itself. */
  lemma {:induction false} LeadingDigit(n: nat)
    ensures |NatToString(n)| > 0 && (NatToString(n)[0] == '0' ==> n == 0)
    decreases n
  {
    if n >= 10 {
      LeadingDigit(n / 10);
    }
  }

  /** v[k] = x on a value that has properties. */
  function Put(v: JsValue, k: string, x: JsValue): (r: JsValue)
    requires HasProps(v)
    ensures HasProps(r) && r.Obj? == v.Obj?
  {
    WithProps(v, Assign(Props(v), k, x))
  }

  lemma GetPut(v: JsValue, k: string, x: JsValue, k': string)
    requires HasProps(v)
    ensures Get(Put(v, k, x), k') == if k' == k then x else Get(v, k')
    ensures Has(Put(v, k, x), k)
  {
    FindAssign(Props(v), k, x, k');
    FindAssign(Props(v), k, x, k);
  }

  // ---------------------------------------------------------------------------
  // String.prototype.split with a one-character separator, and its inverse
  // ---------------------------------------------------------------------------

  /** s.split(sep): the pieces between separators, empty pieces included;
      the empty string gives [""]. */
  function Split(s: string, sep: char): (parts: seq<string>)
    ensures |parts| >= 1
    ensures forall i :: 0 <= i < |parts| ==> sep !in parts[i]
    decreases |s|
  {
    if s == [] then [""]
    else
      var rest := Split(s[1..], sep);
      if s[0] == sep then [""] + rest
      else [[s[0]] + rest[0]] + rest[1..]
  }

  /** parts.join(sep). */
  function Join(parts: seq<string>, sep: char): string
    requires |parts| >= 1
  {
    if |parts| == 1 then parts[0] else parts[0] + [sep] + Join(parts[1..], sep)
  }

  /** Joining the pieces of a split gives back the string. */
  lemma {:induction false} SplitJoin(s: string, sep: char)
    ensures Join(Split(s, sep), sep) == s
    decreases |s|
  {
    if s != [] {
      SplitJoin(s[1..], sep);
      var rest := Split(s[1..], sep);
      if s[0] != sep {
        if |rest| == 1 {
          assert Join(Split(s, sep), sep) == [s[0]] + rest[0];
        } else {
          assert Split(s, sep)[1..] == rest[1..];
          assert Join(rest, sep) == rest[0] + [sep] + Join(rest[1..], sep);
        }
      }
      assert s == [s[0]] + s[1..];
    }
  }

  /** A string splits into more than one piece exactly when it holds the
      separator. */
  lemma {:induction false} SplitCount(s: string, sep: char)
    ensures sep in s <==> |Split(s, sep)| >= 2
    decreases |s|
  {
    if s != [] {
      SplitCount(s[1..], sep);
      assert sep in s <==> s[0] == sep || sep in s[1..] by {
        assert s == [s[0]] + s[1..];
      }
    }
  }
}
