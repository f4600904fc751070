/** A JavaScript plain object used as a dictionary: its own string keys in
    insertion order, and the value stored under each.  `Object.keys`,
    `Object.values` and `for ... in` visit `keys` in order; assigning to a
    present key keeps its position, assigning to a new key appends it. */
module JsObjects {

  datatype Obj<V> = Obj(keys: seq<string>, at: map<string, V>) {

    /** Keys are distinct and are exactly the domain of `at`. */
    ghost predicate Valid() {
      && (forall i, j | 0 <= i < j < |keys| :: keys[i] != keys[j])
      && (forall k :: k in at <==> k in keys)
    }

    predicate Has(k: string) {
      k in at
    }

    /** `o[k] = v`. */
    function Put(k: string, v: V): (o: Obj<V>)
      ensures o.at == at[k := v]
      ensures o.keys == if k in at then keys else keys + [k]
    {
      if k in at then Obj(keys, at[k := v]) else Obj(keys + [k], at[k := v])
    }

    /** `Object.values(o)`. */
    function Values(): (vs: seq<V>)
      requires Valid()
      ensures |vs| == |keys|
      ensures forall i | 0 <= i < |keys| :: vs[i] == at[keys[i]]
    {
      seq(|keys|, i requires 0 <= i < |keys| => at[keys[i]])
    }

    /** `Object.keys(o).length`. */
    function Size(): nat {
      |keys|
    }
  }

  /** No name appears twice. */
  ghost predicate Distinct(s: seq<string>) {
    forall i, j | 0 <= i < j < |s| :: s[i] != s[j]
  }

  /** A second assignment to the same key overrides the first. */
  lemma PutPut<V>(o: Obj<V>, k: string, v1: V, v2: V)
    ensures o.Put(k, v1).Put(k, v2) == o.Put(k, v2)
  {
    assert o.Put(k, v1).at[k := v2] == o.at[k := v2];
  }

  function Empty<V>(): (o: Obj<V>)
    ensures o.Valid() && o.keys == [] && o.at == map[]
  {
    Obj([], map[])
  }

  lemma PutValid<V>(o: Obj<V>, k: string, v: V)
    requires o.Valid()
    ensures o.Put(k, v).Valid()
    ensures |o.Put(k, v).keys| == if k in o.at then |o.keys| else |o.keys| + 1
  {
    var p := o.Put(k, v);
    if k !in o.at {
      forall i, j | 0 <= i < j < |p.keys| ensures p.keys[i] != p.keys[j] {
        if j == |o.keys| {
          assert p.keys[i] == o.keys[i];
          assert p.keys[i] in o.keys;
        }
      }
    }
  }

  /** Replacing values under existing keys changes neither the keys nor
      their order. */
  lemma SameKeysValid<V, W>(o: Obj<V>, m: map<string, W>)
    requires o.Valid() && m.Keys == o.at.Keys
    ensures Obj(o.keys, m).Valid()
  {
  }
}
