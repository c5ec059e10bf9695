/** String-keyed association lists in insertion order: the model of a
    JavaScript object's own properties and of a JavaScript Map, both of which
    iterate their keys in the order they were first inserted. */
module Assoc {
  import opened Common

  datatype Entry<V> = Entry(key: string, val: V)

  function Keys<V>(es: seq<Entry<V>>): (ks: seq<string>)
    ensures |ks| == |es|
    ensures forall i :: 0 <= i < |es| ==> ks[i] == es[i].key
  {
    if es == [] then [] else [es[0].key] + Keys(es[1..])
  }

  function Values<V>(es: seq<Entry<V>>): (vs: seq<V>)
    ensures |vs| == |es|
    ensures forall i :: 0 <= i < |es| ==> vs[i] == es[i].val
  {
    if es == [] then [] else [es[0].val] + Values(es[1..])
  }

  /** No key occurs twice: every object and every Map has this shape. */
  predicate Distinct<V>(es: seq<Entry<V>>)
  {
    forall i, j :: 0 <= i < j < |es| ==> es[i].key != es[j].key
  }

  predicate HasKey<V>(es: seq<Entry<V>>, k: string)
  {
    exists i :: 0 <= i < |es| && es[i].key == k
  }

  /** The value stored under k (the first entry with that key). */
  function Find<V>(es: seq<Entry<V>>, k: string): (r: Option<V>)
    ensures r.Some? <==> HasKey(es, k)
    ensures r.Some? ==> exists i :: 0 <= i < |es| && es[i] == Entry(k, r.value)
  {
    if es == [] then None
    else if es[0].key == k then Some(es[0].val)
    else
      var r := Find(es[1..], k);
      assert r.Some? ==> exists i :: 0 <= i < |es| - 1 && es[1..][i] == Entry(k, r.value);
      r
  }

  /** obj[k] = v / map.set(k, v): an existing key keeps its position and takes
      the new value; a new key goes at the end. */
  function Assign<V>(es: seq<Entry<V>>, k: string, v: V): seq<Entry<V>>
  {
    if es == [] then [Entry(k, v)]
    else if es[0].key == k then [Entry(k, v)] + es[1..]
    else [es[0]] + Assign(es[1..], k, v)
  }

  /** delete obj[k] / map.delete(k). */
  function Remove<V>(es: seq<Entry<V>>, k: string): seq<Entry<V>>
  {
    if es == [] then []
    else if es[0].key == k then Remove(es[1..], k)
    else [es[0]] + Remove(es[1..], k)
  }

  lemma {:induction false} FindAssign<V>(es: seq<Entry<V>>, k: string, v: V, k': string)
    ensures Find(Assign(es, k, v), k') == if k' == k then Some(v) else Find(es, k')
  {
    if es != [] && es[0].key != k {
      FindAssign(es[1..], k, v, k');
      assert Assign(es, k, v)[1..] == Assign(es[1..], k, v);
    } else if es != [] {
      assert Assign(es, k, v)[1..] == es[1..];
    }
  }

  /** Assigning keeps the key order: an existing key stays where it was, a new
      one is appended. */
  lemma {:induction false} AssignKeys<V>(es: seq<Entry<V>>, k: string, v: V)
    ensures Keys(Assign(es, k, v)) == if HasKey(es, k) then Keys(es) else Keys(es) + [k]
  {
    if es != [] {
      if es[0].key == k {
        KeysCons(Entry(k, v), es[1..]);
        KeysCons(es[0], es[1..]);
        assert [es[0]] + es[1..] == es;
      } else {
        AssignKeys(es[1..], k, v);
        HasKeyTail(es, k);
        KeysCons(es[0], Assign(es[1..], k, v));
        KeysCons(es[0], es[1..]);
        assert [es[0]] + es[1..] == es;
      }
    }
  }

  lemma KeysCons<V>(e: Entry<V>, es: seq<Entry<V>>)
    ensures Keys([e] + es) == [e.key] + Keys(es)
  {
    assert ([e] + es)[1..] == es;
  }

  /** Past a first entry with another key, the key is present iff it is in
      the rest. */
  lemma HasKeyTail<V>(es: seq<Entry<V>>, k: string)
    requires es != [] && es[0].key != k
    ensures HasKey(es, k) <==> HasKey(es[1..], k)
  {
    if HasKey(es, k) {
      var i :| 0 <= i < |es| && es[i].key == k;
      assert es[1..][i - 1].key == k;
    }
    if HasKey(es[1..], k) {
      var i :| 0 <= i < |es| - 1 && es[1..][i].key == k;
      assert es[i + 1].key == k;
    }
  }

  lemma AssignDistinct<V>(es: seq<Entry<V>>, k: string, v: V)
    requires Distinct(es)
    ensures Distinct(Assign(es, k, v))
  {
    var r := Assign(es, k, v);
    AssignKeys(es, k, v);
    var ks, old_ks := Keys(r), Keys(es);
    forall i, j | 0 <= i < j < |r|
      ensures r[i].key != r[j].key
    {
      assert r[i].key == ks[i] && r[j].key == ks[j];
      assert ks[i] == old_ks[i] == es[i].key;
      if j < |es| {
        assert ks[j] == old_ks[j] == es[j].key;
      } else {
        assert ks[j] == k && !HasKey(es, k);
      }
    }
  }

  /** Overwriting an existing key: same keys in the same order, still
      distinct, and only that key reads differently. */
  lemma AssignExisting<V>(es: seq<Entry<V>>, k: string, v: V)
    requires Distinct(es) && HasKey(es, k)
    ensures Keys(Assign(es, k, v)) == Keys(es)
    ensures Distinct(Assign(es, k, v))
    ensures forall k' :: Find(Assign(es, k, v), k') == if k' == k then Some(v) else Find(es, k')
  {
    AssignKeys(es, k, v);
    AssignDistinct(es, k, v);
    forall k'
      ensures Find(Assign(es, k, v), k') == if k' == k then Some(v) else Find(es, k')
    {
      FindAssign(es, k, v, k');
    }
  }

  lemma {:induction false} FindRemove<V>(es: seq<Entry<V>>, k: string, k': string)
    ensures Find(Remove(es, k), k') == if k' == k then None else Find(es, k')
  {
    if es != [] {
      FindRemove(es[1..], k, k');
      if es[0].key != k {
        assert Remove(es, k)[1..] == Remove(es[1..], k);
      }
    }
  }

  /** Removing a key leaves only entries that were there, none under that
      key, and keeps keys distinct. */
  lemma {:induction false} RemoveEntries<V>(es: seq<Entry<V>>, k: string)
    ensures forall e :: e in Remove(es, k) ==> e in es && e.key != k
    ensures Distinct(es) ==> Distinct(Remove(es, k))
  {
    if es != [] {
      RemoveEntries(es[1..], k);
      var r := Remove(es[1..], k);
      if es[0].key != k && Distinct(es) {
        assert Distinct(es[1..]);
        forall j | 0 < j < |[es[0]] + r|
          ensures ([es[0]] + r)[j].key != es[0].key
        {
          assert r[j - 1] in es[1..];
        }
      }
    }
  }

  /** Assigning brings in no entry other than the one assigned. */
  lemma {:induction false} AssignValues<V>(es: seq<Entry<V>>, k: string, v: V)
    ensures forall e :: e in Assign(es, k, v) ==> e in es || e == Entry(k, v)
  {
    if es != [] && es[0].key != k {
      AssignValues(es[1..], k, v);
    }
  }

  /** map.set(k, v) followed by map.delete(k), for a key that was not there,
      gives back the map it started from. */
  lemma {:induction false} RemoveAssignFresh<V>(es: seq<Entry<V>>, k: string, v: V)
    requires !HasKey(es, k)
    ensures Remove(Assign(es, k, v), k) == es
  {
    if es != [] {
      assert es[0].key != k;
      forall i | 0 <= i < |es| - 1
        ensures es[1..][i].key != k
      {
        assert es[1..][i] == es[i + 1];
      }
      RemoveAssignFresh(es[1..], k, v);
    }
  }

  /** Removing a key that is absent changes nothing. */
  lemma {:induction false} RemoveAbsent<V>(es: seq<Entry<V>>, k: string)
    requires !HasKey(es, k)
    ensures Remove(es, k) == es
  {
    if es != [] {
      assert es[0].key != k;
      forall i | 0 <= i < |es| - 1
        ensures es[1..][i].key != k
      {
        assert es[1..][i] == es[i + 1];
      }
      RemoveAbsent(es[1..], k);
    }
  }

  /** Deleting the first key of a map with distinct keys drops exactly the
      first entry. */
  lemma RemoveFirst<V>(es: seq<Entry<V>>)
    requires Distinct(es) && es != []
    ensures Remove(es, es[0].key) == es[1..]
  {
    forall i | 0 <= i < |es| - 1
      ensures es[1..][i].key != es[0].key
    {
      assert es[1..][i] == es[i + 1];
    }
    RemoveAbsent(es[1..], es[0].key);
  }

  /** { ...base, ...extra }: every entry of extra is assigned, in order. */
  function Spread<V>(base: seq<Entry<V>>, extra: seq<Entry<V>>): seq<Entry<V>>
    decreases |extra|
  {
    if extra == [] then base else Spread(Assign(base, extra[0].key, extra[0].val), extra[1..])
  }

  /** In a spread the later object wins: a key extra has takes extra's
      value, any other key keeps base's. */
  lemma {:induction false} SpreadFind<V>(base: seq<Entry<V>>, extra: seq<Entry<V>>, k: string)
    requires Distinct(extra)
    ensures Find(Spread(base, extra), k) == if HasKey(extra, k) then Find(extra, k) else Find(base, k)
    decreases |extra|
  {
    if extra != [] {
      var e := extra[0];
      assert Distinct(extra[1..]);
      SpreadFind(Assign(base, e.key, e.val), extra[1..], k);
      FindAssign(base, e.key, e.val, k);
      assert HasKey(extra, k) <==> e.key == k || HasKey(extra[1..], k) by {
        if HasKey(extra, k) && e.key != k {
          var i :| 0 <= i < |extra| && extra[i].key == k;
          assert extra[1..][i - 1].key == k;
        }
        if HasKey(extra[1..], k) {
          var i :| 0 <= i < |extra| - 1 && extra[1..][i].key == k;
          assert extra[i + 1].key == k;
        }
      }
    }
  }
}
