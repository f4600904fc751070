/** The checkbox reducer of the monitoring-station page as the code runs it:
    the dictionaries copied from the old state are updated entry by entry,
    and every sum of states is accumulated in a loop. Each method is proved
    to compute the `StationCheckboxes` function of the same name under the
    rule the code implements, `SumOfStates`. */
module StationReducer {
  import opened Wrappers
  import opened JsObjects
  import opened StationCheckboxes

  // ---------------------------------------------------------------------
  // Sums of states

  lemma {:induction false} SumConcat(a: seq<int>, b: seq<int>)
    ensures Sum(a + b) == Sum(a) + Sum(b)
  {
    if |a| > 0 {
      assert (a + b)[1..] == a[1..] + b;
      SumConcat(a[1..], b);
    } else {
      assert a + b == b;
    }
  }

  lemma StatesConcat(o: Dict, a: seq<string>, b: seq<string>)
    ensures States(o, a + b) == States(o, a) + States(o, b)
  {
  }

  /** Adding one more entry to a sum of states adds its state. */
  lemma SumStatesSnoc(o: Dict, a: seq<string>, x: string)
    ensures Sum(States(o, a + [x])) == Sum(States(o, a)) + Sel(o, x)
  {
    StatesConcat(o, a, [x]);
    SumConcat(States(o, a), States(o, [x]));
  }

  /** Removing the entry at `j` from a sequence without repetitions. */
  lemma RemoveAt(b: seq<string>, j: nat)
    requires Distinct(b) && j < |b|
    ensures Distinct(b[..j] + b[j + 1..])
    ensures forall y :: y in b[..j] + b[j + 1..] <==> y in b && y != b[j]
  {
    var b' := b[..j] + b[j + 1..];
    forall p, q | 0 <= p < q < |b'| ensures b'[p] != b'[q] {
      var p1 := if p < j then p else p + 1;
      var q1 := if q < j then q else q + 1;
      assert b'[p] == b[p1] && b'[q] == b[q1];
    }
    forall y ensures y in b' <==> y in b && y != b[j] {
      if y in b' {
        var q :| 0 <= q < |b'| && b'[q] == y;
        var q1 := if q < j then q else q + 1;
        assert b[q1] == y;
      }
      if y in b && y != b[j] {
        var q :| 0 <= q < |b| && b[q] == y;
        if q < j {
          assert b'[q] == y;
        } else {
          assert b'[q - 1] == y;
        }
      }
    }
  }

  /** The states of `b` add up to those of `b` without its entry `j`, plus
      that entry's state. */
  lemma SumStatesRemove(o: Dict, b: seq<string>, j: nat)
    requires j < |b|
    ensures Sum(States(o, b)) == Sum(States(o, b[..j] + b[j + 1..])) + Sel(o, b[j])
  {
    assert b == b[..j] + [b[j]] + b[j + 1..];
    StatesConcat(o, b[..j] + [b[j]], b[j + 1..]);
    StatesConcat(o, b[..j], [b[j]]);
    StatesConcat(o, b[..j], b[j + 1..]);
    SumConcat(States(o, b[..j]) + States(o, [b[j]]), States(o, b[j + 1..]));
    SumConcat(States(o, b[..j]), States(o, [b[j]]));
    SumConcat(States(o, b[..j]), States(o, b[j + 1..]));
  }

  lemma FirstIn(b: seq<string>)
    ensures |b| > 0 ==> b[0] in b
  {
  }

  /** The sum of the states of distinct entries does not depend on the
      order they are visited in. */
  lemma {:induction false} SumStatesPermutation(o: Dict, a: seq<string>, b: seq<string>)
    requires Distinct(a) && Distinct(b)
    requires forall x :: x in a <==> x in b
    ensures Sum(States(o, a)) == Sum(States(o, b))
    decreases |a|
  {
    if |a| > 0 {
      var n := |a| - 1;
      var x := a[n];
      assert x in b;
      var j :| 0 <= j < |b| && b[j] == x;
      RemoveAt(a, n);
      RemoveAt(b, j);
      assert a[..n] + a[n + 1..] == a[..n];
      forall y ensures y in a[..n] <==> y in b[..j] + b[j + 1..] {
        assert y in a <==> y in b;
      }
      SumStatesPermutation(o, a[..n] + a[n + 1..], b[..j] + b[j + 1..]);
      SumStatesRemove(o, a, n);
      SumStatesRemove(o, b, j);
    } else {
      FirstIn(b);
    }
  }

  /** The keys among `ks`, in order, whose entry has group (or type) `id`. */
  function Filtered(o: Dict, ks: seq<string>, ref: Ref, id: string): (r: seq<string>)
    ensures forall x :: x in r <==> x in ks && x in o.at && RefOf(o.at[x], ref) == id
    ensures Distinct(ks) ==> Distinct(r)
    decreases |ks|
  {
    if |ks| == 0 then []
    else
      var last := ks[|ks| - 1];
      assert forall x | x in ks[..|ks| - 1] :: x in ks;
      assert Distinct(ks) ==> last !in ks[..|ks| - 1];
      Filtered(o, ks[..|ks| - 1], ref, id) + (if last in o.at && RefOf(o.at[last], ref) == id then [last] else [])
  }

  lemma FilteredSnoc(o: Dict, ks: seq<string>, i: nat, ref: Ref, id: string)
    requires i < |ks|
    ensures Filtered(o, ks[..i + 1], ref, id) ==
      Filtered(o, ks[..i], ref, id) + (if ks[i] in o.at && RefOf(o.at[ks[i]], ref) == id then [ks[i]] else [])
  {
    assert ks[..i + 1][..i] == ks[..i];
  }

  /** The children of a parent in a structured state, visited in key order,
      are exactly its members, so their states add up the same. */
  lemma ChildrenInKeyOrder(children: Dict, ref: Ref, id: string, members: seq<string>)
    requires KeyedById(children) && Distinct(members)
    requires forall x :: x in members <==> x in children.at && RefOf(children.at[x], ref) == id
    ensures forall o: Dict :: Sum(States(o, Filtered(children, children.keys, ref, id))) == Sum(States(o, members))
  {
    forall o: Dict ensures Sum(States(o, Filtered(children, children.keys, ref, id))) == Sum(States(o, members)) {
      SumStatesPermutation(o, Filtered(children, children.keys, ref, id), members);
    }
  }

  // ---------------------------------------------------------------------
  // The helpers of `toggle`

  /** The sum of the states of `ids`; reading an absent entry is a
      `TypeError`. */
  method SumSelected(o: Dict, ids: seq<string>) returns (r: Result<int>)
    ensures r.Ok? <==> Covers(o, ids)
    ensures r.Ok? ==> r.value == Sum(States(o, ids))
  {
    var total := 0;
    var i := 0;
    while i < |ids|
      invariant 0 <= i <= |ids|
      invariant Covers(o, ids[..i])
      invariant total == Sum(States(o, ids[..i]))
    {
      if ids[i] !in o.at {
        assert ids[i] in ids;
        return Err(TypeError);
      }
      SumStatesSnoc(o, ids[..i], ids[i]);
      assert ids[..i + 1] == ids[..i] + [ids[i]];
      total := total + o.at[ids[i]].selected;
      i := i + 1;
    }
    assert ids[..i] == ids;
    return Ok(total);
  }

  /** `updateParent`: the parent takes 0 when its children's states add up
      to 0, 1 when they add up to the number of children, 2 otherwise. */
  method UpdateParent(parents: Dict, children: Dict, parentId: string, childIds: seq<string>) returns (r: Result<Dict>)
    requires parentId in parents.at
    ensures r.Ok? <==> Covers(children, childIds)
    ensures r.Ok? ==> r.value == SetSelected(parents, parentId, Aggregate(SumOfStates, States(children, childIds)))
  {
    var childrenSelected := SumSelected(children, childIds);
    if childrenSelected.Err? {
      return Err(childrenSelected.error);
    }
    var n := childrenSelected.value;
    var parentSelected := if n == 0 then 0 else if n == |childIds| then 1 else 2;
    return Ok(parents.Put(parentId, parents.at[parentId].(selected := parentSelected)));
  }

  /** `updateDescendants`: every entry whose group (or type) is `id` is
      replaced by a copy with state `v`. */
  method UpdateDescendants(o: Dict, ref: Ref, id: string, v: int) returns (r: Dict)
    requires KeyedById(o)
    ensures r == Descendants(o, ref, id, v)
  {
    ghost var final := Descendants(o, ref, id, v);
    SameKeysValid(o, final.at);
    r := o;
    var i := 0;
    while i < |o.keys|
      invariant PartlySettled(r, final, o, o.keys, i)
    {
      var entity := o.at[o.keys[i]];
      if RefOf(entity, ref) == id {
        SettleStep(r, final, o, o.keys, i, entity.(selected := v));
        r := r.Put(entity.id, entity.(selected := v));
      } else {
        KeptStep(r, final, o, o.keys, i);
      }
      i := i + 1;
    }
    SettleDone(r, final, o);
  }

  /** A settling step that leaves the `i`-th entry as it was. */
  lemma KeptStep(out: Dict, final: Dict, before: Dict, keys: seq<string>, i: nat)
    requires i < |keys| && PartlySettled(out, final, before, keys, i)
    requires keys[i] in final.at && final.at[keys[i]] == before.at[keys[i]]
    ensures PartlySettled(out, final, before, keys, i + 1)
  {
  }

  /** The sum of the group states against the number of groups, as `toggle`
      computes `all`. */
  method AllSelected(groups: Dict) returns (all: int)
    requires groups.Valid()
    ensures all == AllOf(SumOfStates, groups)
  {
    var groupsSelected := SumSelected(groups, groups.keys);
    var n := groupsSelected.value;
    all := if n == 0 then 0 else if n == |groups.keys| then 1 else 2;
  }

  /** `toggle` as the code runs it; an absent entry is a `TypeError`. */
  method Toggle(s: Checkboxes, level: Level, id: string) returns (r: Result<Checkboxes>)
    requires KeyedById(s.groups) && KeyedById(s.types) && KeyedById(s.charcs)
    ensures r == StationCheckboxes.Toggle(SumOfStates, s, level, id)
  {
    match level
    case CharacteristicLevel =>
      if id !in s.charcs.at {
        return Err(TypeError);
      }
      var entity := s.charcs.at[id];
      var newSelected := if entity.selected == 0 then 1 else 0;
      var newCharcs := SetSelected(s.charcs, id, newSelected);
      if entity.typeId !in s.types.at {
        return Err(TypeError);
      }
      var newTypes := UpdateParent(s.types, newCharcs, entity.typeId, s.types.at[entity.typeId].members);
      if newTypes.Err? {
        return Err(TypeError);
      }
      if entity.group !in s.groups.at {
        return Err(TypeError);
      }
      var newGroups := UpdateParent(s.groups, newTypes.value, entity.group, s.groups.at[entity.group].members);
      if newGroups.Err? {
        return Err(TypeError);
      }
      var all := AllSelected(newGroups.value);
      return Ok(Checkboxes(all, newGroups.value, newTypes.value, newCharcs));
    case GroupLevel =>
      if id !in s.groups.at {
        return Err(TypeError);
      }
      var entity := s.groups.at[id];
      var newSelected := if entity.selected == 0 then 1 else 0;
      var newGroups := SetSelected(s.groups, id, newSelected);
      var newTypes := UpdateDescendants(s.types, ByGroup, id, newSelected);
      var newCharcs := UpdateDescendants(s.charcs, ByGroup, id, newSelected);
      PutValid(s.groups, id, entity.(selected := newSelected));
      var all := AllSelected(newGroups);
      return Ok(Checkboxes(all, newGroups, newTypes, newCharcs));
    case TypeLevel =>
      if id !in s.types.at {
        return Err(TypeError);
      }
      var entity := s.types.at[id];
      var newSelected := if entity.selected == 0 then 1 else 0;
      var newTypes := SetSelected(s.types, id, newSelected);
      var newCharcs := UpdateDescendants(s.charcs, ByType, id, newSelected);
      if entity.group !in s.groups.at {
        return Err(TypeError);
      }
      var newGroups := UpdateParent(s.groups, newTypes, entity.group, s.groups.at[entity.group].members);
      if newGroups.Err? {
        return Err(TypeError);
      }
      var all := AllSelected(newGroups.value);
      return Ok(Checkboxes(all, newGroups.value, newTypes, newCharcs));
  }

  // ---------------------------------------------------------------------
  // `toggleAll` and `loadNewData`

  /** A fresh dictionary holding `f` of every entry under the entry's own
      id, in the original order: the `forEach` loops of `toggleAll` and
      `loadNewData`. */
  method CopyWith(o: Dict, f: Entity -> Entity) returns (r: Dict)
    requires KeyedById(o)
    requires forall k | k in o.at :: f(o.at[k]).id == k
    ensures r.keys == o.keys && r.at.Keys == o.at.Keys
    ensures forall k | k in o.at :: r.at[k] == f(o.at[k])
  {
    r := Empty();
    var i := 0;
    while i < |o.keys|
      invariant 0 <= i <= |o.keys|
      invariant r.keys == o.keys[..i]
      invariant r.at == map k | k in o.keys[..i] :: f(o.at[k])
    {
      var entity := o.at[o.keys[i]];
      var copy := f(entity);
      CopyStep(o, f, i, r);
      r := r.Put(copy.id, copy);
      i := i + 1;
    }
    assert o.keys[..i] == o.keys;
    assert forall k :: k in o.keys <==> k in o.at;
  }

  /** One turn of `copy`'s loop: the next key's copy is appended under its
      own id. */
  lemma CopyStep(o: Dict, f: Entity -> Entity, i: nat, r: Dict)
    requires o.Valid() && i < |o.keys|
    requires forall k | k in o.at :: f(o.at[k]).id == k
    requires r.keys == o.keys[..i] && r.at == map k | k in o.keys[..i] :: f(o.at[k])
    ensures o.keys[i] in o.at
    ensures var copy := f(o.at[o.keys[i]]);
      && r.Put(copy.id, copy).keys == o.keys[..i + 1]
      && r.Put(copy.id, copy).at == map k | k in o.keys[..i + 1] :: f(o.at[k])
  {
    var key := o.keys[i];
    assert key !in o.keys[..i];
    assert o.keys[..i + 1] == o.keys[..i] + [key];
    var copy := f(o.at[key]);
    assert copy.id == key;
  }

  /** `toggleAll`: fresh copies of every entry with the new state. */
  method ToggleAll(s: Checkboxes) returns (r: Checkboxes)
    requires KeyedById(s.groups) && KeyedById(s.types) && KeyedById(s.charcs)
    ensures r == StationCheckboxes.ToggleAll(s)
  {
    var newSelected := if s.all == 0 then 1 else 0;
    var newCharcs := CopySelected(s.charcs, newSelected);
    var newGroups := CopySelected(s.groups, newSelected);
    var newTypes := CopySelected(s.types, newSelected);
    r := Checkboxes(newSelected, newGroups, newTypes, newCharcs);
  }

  /** A copy of every entry with the state `v`, as `toggleAll`'s
      `setState` makes it. */
  method CopySelected(o: Dict, v: int) returns (r: Dict)
    requires KeyedById(o)
    ensures r == SetAll(o, v)
  {
    var setState := (e: Entity) => e.(selected := v);
    r := CopyWith(o, setState);
    assert r.at == SetAll(o, v).at;
  }

  /** The sum of the states of the entries among `ks` whose group (or
      type) is `id`. */
  function SumWhere(o: Dict, ks: seq<string>, ref: Ref, id: string): int
    decreases |ks|
  {
    if |ks| == 0 then 0
    else
      var last := ks[|ks| - 1];
      SumWhere(o, ks[..|ks| - 1], ref, id) + (if last in o.at && RefOf(o.at[last], ref) == id then o.at[last].selected else 0)
  }

  lemma {:induction false} SumWhereFiltered(o: Dict, ks: seq<string>, ref: Ref, id: string)
    ensures SumWhere(o, ks, ref, id) == Sum(States(o, Filtered(o, ks, ref, id)))
    decreases |ks|
  {
    if |ks| > 0 {
      var last := ks[|ks| - 1];
      SumWhereFiltered(o, ks[..|ks| - 1], ref, id);
      if last in o.at && RefOf(o.at[last], ref) == id {
        SumStatesSnoc(o, Filtered(o, ks[..|ks| - 1], ref, id), last);
      } else {
        assert Filtered(o, ks, ref, id) == Filtered(o, ks[..|ks| - 1], ref, id);
      }
    }
  }

  /** The parents part way through an accumulating loop: their state at
      the start plus the states of their children met so far. */
  ghost predicate Accumulated(parents0: Dict, parents: Dict, children: Dict, seen: seq<string>, ref: Ref) {
    && parents.keys == parents0.keys && parents.at.Keys == parents0.at.Keys
    && forall p | p in parents0.at ::
         parents.at[p] == parents0.at[p].(selected := parents0.at[p].selected + SumWhere(children, seen, ref, p))
  }

  /** One step of an accumulating loop: the child `keys[i]` adds its state
      to its parent. */
  lemma AccumulateStep(parents0: Dict, parents: Dict, children: Dict, keys: seq<string>, i: nat, ref: Ref, p: string, v: int)
    requires i < |keys| && keys[i] in children.at
    requires p == RefOf(children.at[keys[i]], ref) && v == children.at[keys[i]].selected
    requires p in parents.at
    requires Accumulated(parents0, parents, children, keys[..i], ref)
    ensures Accumulated(parents0, parents.Put(p, parents.at[p].(selected := parents.at[p].selected + v)), children, keys[..i + 1], ref)
  {
    assert keys[..i + 1][..i] == keys[..i];
  }

  /** The first loop of `updateSelected`: every characteristic adds its
      state to its type. */
  method AddCharcStates(charcs: Dict, types: Dict) returns (r: Dict)
    requires KeyedById(charcs)
    requires forall c | c in charcs.at :: charcs.at[c].typeId in types.at
    ensures Accumulated(types, r, charcs, charcs.keys, ByType)
  {
    r := types;
    var i := 0;
    while i < |charcs.keys|
      invariant 0 <= i <= |charcs.keys|
      invariant Accumulated(types, r, charcs, charcs.keys[..i], ByType)
    {
      var charc := charcs.at[charcs.keys[i]];
      AccumulateStep(types, r, charcs, charcs.keys, i, ByType, charc.typeId, charc.selected);
      r := r.Put(charc.typeId, r.at[charc.typeId].(selected := r.at[charc.typeId].selected + charc.selected));
      i := i + 1;
    }
    assert charcs.keys[..i] == charcs.keys;
  }

  /** The state `updateSelected` derives from a sum of `n` child states. */
  function FromSum(total: int, n: int): int {
    if total == 0 then 0 else if total == n then 1 else 2
  }

  lemma FromSumIsAggregate(xs: seq<int>)
    ensures FromSum(Sum(xs), |xs|) == Aggregate(SumOfStates, xs)
  {
  }

  /** The parents with their final states. */
  ghost function Derived(parents: Dict, children: Dict): Dict {
    Obj(parents.keys, map p | p in parents.at ::
      parents.at[p].(selected := Aggregate(SumOfStates, States(children, parents.at[p].members))))
  }

  /** Part way through a loop that rewrites entries in key order: the
      entries visited so far hold their final value, the others their
      value from before. */
  ghost predicate PartlySettled(out: Dict, final: Dict, before: Dict, keys: seq<string>, i: nat) {
    && i <= |keys|
    && out.keys == keys && out.at.Keys == final.at.Keys
    && (forall j | 0 <= j < i :: keys[j] in out.at && keys[j] in final.at && out.at[keys[j]] == final.at[keys[j]])
    && (forall j | i <= j < |keys| :: keys[j] in out.at && keys[j] in before.at && out.at[keys[j]] == before.at[keys[j]])
  }

  lemma SettleStep(out: Dict, final: Dict, before: Dict, keys: seq<string>, i: nat, v: Entity)
    requires Distinct(keys) && i < |keys| && PartlySettled(out, final, before, keys, i)
    requires keys[i] in final.at && v == final.at[keys[i]]
    ensures PartlySettled(out.Put(keys[i], v), final, before, keys, i + 1)
  {
  }

  lemma SettleDone(out: Dict, final: Dict, before: Dict)
    requires final.Valid() && PartlySettled(out, final, before, final.keys, |final.keys|)
    ensures out == final
  {
    forall k | k in final.at ensures out.at[k] == final.at[k] {
      var j :| 0 <= j < |final.keys| && final.keys[j] == k;
    }
    assert out.at == final.at;
  }

  /** A parent holding the sum of its children's states settles into its
      derived state. */
  lemma SettledValue(parents0: Dict, children: Dict, e: Entity, k: string)
    requires k in parents0.at
    requires e == parents0.at[k].(selected := Sum(States(children, parents0.at[k].members)))
    ensures Derived(parents0, children).at[k] == e.(selected := FromSum(e.selected, |e.members|))
  {
    FromSumIsAggregate(States(children, parents0.at[k].members));
  }

  lemma DerivedKeyed(parents: Dict, children: Dict)
    requires KeyedById(parents)
    ensures KeyedById(Derived(parents, children)) && SameShape(parents, Derived(parents, children))
  {
    SameKeysValid(parents, Derived(parents, children).at);
  }

  /** Every parent holds the sum of its children's states. */
  ghost predicate HoldsSums(before: Dict, parents0: Dict, children: Dict) {
    && before.at.Keys == parents0.at.Keys && before.keys == parents0.keys
    && forall p | p in parents0.at ::
         before.at[p] == parents0.at[p].(selected := Sum(States(children, parents0.at[p].members)))
  }

  /** A checkbox with its summed state turned into a state. */
  function Settle(e: Entity): Entity {
    e.(selected := FromSum(e.selected, |e.members|))
  }

  /** `final` is `before` with every entry settled. */
  ghost predicate SettledFrom(final: Dict, before: Dict) {
    && final.keys == before.keys && final.at.Keys == before.at.Keys
    && forall k | k in before.at :: final.at[k] == Settle(before.at[k])
  }

  /** Entries holding the sums of their members' states settle to the
      derived states. */
  lemma DerivedSettles(before: Dict, parents0: Dict, children: Dict)
    requires HoldsSums(before, parents0, children)
    ensures SettledFrom(Derived(parents0, children), before)
  {
    forall k | k in before.at ensures Derived(parents0, children).at[k] == Settle(before.at[k]) {
      SettledValue(parents0, children, before.at[k], k);
    }
  }

  lemma GroupsOfSums(types: Dict, types0: Dict, charcs: Dict, groups: Dict)
    requires KeyedById(types0) && HoldsSums(types, types0, charcs)
    requires forall t | t in types0.at :: types0.at[t].group in groups.at
    ensures Distinct(types.keys)
    ensures forall t | t in types.at :: types.at[t].group in groups.at
  {
  }

  /** The body of the second loop of `updateSelected` for the `i`-th type:
      it turns its sum into a state and adds that state to its group. */
  method SettleType(ghost final: Dict, ghost types: Dict, ghost groups: Dict,
                    typesIn: Dict, groupsIn: Dict, t: string, ghost i: nat)
    returns (typesOut: Dict, groupsOut: Dict)
    requires Distinct(types.keys) && i < |types.keys| && t == types.keys[i]
    requires SettledFrom(final, types)
    requires forall t | t in types.at :: types.at[t].group in groups.at
    requires PartlySettled(typesIn, final, types, types.keys, i)
    requires Accumulated(groups, groupsIn, final, types.keys[..i], ByGroup)
    ensures PartlySettled(typesOut, final, types, types.keys, i + 1)
    ensures Accumulated(groups, groupsOut, final, types.keys[..i + 1], ByGroup)
  {
    var entity := typesIn.at[t];
    var settled := FromSum(entity.selected, |entity.members|);
    SettleStep(typesIn, final, types, types.keys, i, entity.(selected := settled));
    AccumulateStep(groups, groupsIn, final, types.keys, i, ByGroup, entity.group, settled);
    typesOut := typesIn.Put(t, entity.(selected := settled));
    groupsOut := groupsIn.Put(entity.group, groupsIn.at[entity.group].(selected := groupsIn.at[entity.group].selected + settled));
  }

  /** The second loop of `updateSelected`: every type turns its sum into a
      state and adds that state to its group. */
  method SettleTypes(ghost charcs: Dict, types0: Dict, types: Dict, groups: Dict) returns (typesOut: Dict, groupsOut: Dict)
    requires KeyedById(types0)
    requires forall t | t in types0.at :: types0.at[t].group in groups.at
    requires HoldsSums(types, types0, charcs)
    ensures typesOut == Derived(types0, charcs)
    ensures Accumulated(groups, groupsOut, Derived(types0, charcs), types0.keys, ByGroup)
  {
    DerivedKeyed(types0, charcs);
    DerivedSettles(types, types0, charcs);
    GroupsOfSums(types, types0, charcs, groups);
    ghost var final := Derived(types0, charcs);
    typesOut := types;
    groupsOut := groups;
    var i := 0;
    while i < |types0.keys|
      invariant i <= |types0.keys|
      invariant PartlySettled(typesOut, final, types, types.keys, i)
      invariant Accumulated(groups, groupsOut, final, types.keys[..i], ByGroup)
    {
      typesOut, groupsOut := SettleType(final, types, groups, typesOut, groupsOut, types0.keys[i], i);
      i := i + 1;
    }
    SettleDone(typesOut, final, types);
    assert types0.keys[..i] == types0.keys;
  }

  /** The body of the third loop of `updateSelected` for the `i`-th group:
      it turns its sum into a state, which is added to the running total. */
  method SettleGroup(ghost final: Dict, ghost groups: Dict,
                     groupsIn: Dict, totalIn: int, g: string, ghost i: nat)
    returns (groupsOut: Dict, total: int)
    requires Distinct(groups.keys) && i < |groups.keys| && g == groups.keys[i]
    requires SettledFrom(final, groups)
    requires PartlySettled(groupsIn, final, groups, groups.keys, i)
    requires totalIn == Sum(States(final, groups.keys[..i]))
    ensures PartlySettled(groupsOut, final, groups, groups.keys, i + 1)
    ensures total == Sum(States(final, groups.keys[..i + 1]))
  {
    assert groups.keys[..i + 1] == groups.keys[..i] + [g];
    var entity := groupsIn.at[g];
    var settled := FromSum(entity.selected, |entity.members|);
    SettleStep(groupsIn, final, groups, groups.keys, i, entity.(selected := settled));
    SumStatesSnoc(final, groups.keys[..i], g);
    groupsOut := groupsIn.Put(g, entity.(selected := settled));
    total := totalIn + settled;
  }

  /** The third loop of `updateSelected`: every group turns its sum into a
      state, and the group states are added up. */
  method SettleGroups(ghost types: Dict, groups0: Dict, groups: Dict) returns (groupsOut: Dict, groupsSelected: int)
    requires KeyedById(groups0)
    requires HoldsSums(groups, groups0, types)
    ensures groupsOut == Derived(groups0, types)
    ensures groupsSelected == Sum(States(groupsOut, groupsOut.keys))
  {
    DerivedKeyed(groups0, types);
    DerivedSettles(groups, groups0, types);
    ghost var final := Derived(groups0, types);
    groupsOut := groups;
    groupsSelected := 0;
    var i := 0;
    while i < |groups0.keys|
      invariant i <= |groups0.keys|
      invariant PartlySettled(groupsOut, final, groups, groups.keys, i)
      invariant groupsSelected == Sum(States(final, groups.keys[..i]))
    {
      groupsOut, groupsSelected := SettleGroup(final, groups, groupsOut, groupsSelected, groups0.keys[i], i);
      i := i + 1;
    }
    SettleDone(groupsOut, final, groups);
    assert groups0.keys[..i] == groups0.keys;
  }

  /** A type's characteristics are the characteristics that name it. */
  lemma TypeMembers(s: Checkboxes, t: string)
    requires Structured(s) && t in s.types.at
    ensures Distinct(s.types.at[t].members)
    ensures forall x :: x in s.types.at[t].members <==> x in s.charcs.at && RefOf(s.charcs.at[x], ByType) == t
  {
    assert TypeOk(s, t);
    forall x | x in s.charcs.at && s.charcs.at[x].typeId == t
      ensures x in s.types.at[t].members
    {
      assert CharcOk(s, x);
    }
  }

  /** A group's types are the types that name it. */
  lemma GroupMembers(s: Checkboxes, g: string)
    requires Structured(s) && g in s.groups.at
    ensures Distinct(s.groups.at[g].members)
    ensures forall x :: x in s.groups.at[g].members <==> x in s.types.at && RefOf(s.types.at[x], ByGroup) == g
  {
    assert GroupOk(s, g);
    forall x | x in s.types.at && s.types.at[x].group == g
      ensures x in s.groups.at[g].members
    {
      assert TypeOk(s, x);
    }
  }

  /** After the first loop every type holds the sum of its
      characteristics' states. */
  lemma TypesHoldSums(charcs: Dict, types: Dict, groups: Dict, summed: Dict)
    requires Structured(Checkboxes(0, groups, types, charcs))
    requires forall t | t in types.at :: types.at[t].selected == 0
    requires Accumulated(types, summed, charcs, charcs.keys, ByType)
    ensures HoldsSums(summed, types, charcs)
  {
    forall t | t in types.at
      ensures summed.at[t] == types.at[t].(selected := Sum(States(charcs, types.at[t].members)))
    {
      TypeMembers(Checkboxes(0, groups, types, charcs), t);
      ChildrenInKeyOrder(charcs, ByType, t, types.at[t].members);
      SumWhereFiltered(charcs, charcs.keys, ByType, t);
    }
  }

  /** After the second loop every group holds the sum of its types'
      settled states. */
  lemma GroupsHoldSums(charcs: Dict, types: Dict, groups: Dict, summed: Dict)
    requires Structured(Checkboxes(0, groups, types, charcs))
    requires forall g | g in groups.at :: groups.at[g].selected == 0
    requires Accumulated(groups, summed, Derived(types, charcs), types.keys, ByGroup)
    ensures HoldsSums(summed, groups, Derived(types, charcs))
  {
    var settled := Derived(types, charcs);
    DerivedKeyed(types, charcs);
    forall g | g in groups.at
      ensures summed.at[g] == groups.at[g].(selected := Sum(States(settled, groups.at[g].members)))
    {
      GroupHoldsSum(Checkboxes(0, groups, types, charcs), settled, summed, g);
    }
  }

  /** After the second loop the group `g` holds the sum of its types'
      states in `settled`. */
  lemma GroupHoldsSum(s: Checkboxes, settled: Dict, summed: Dict, g: string)
    requires Structured(s) && KeyedById(settled) && SameShape(s.types, settled)
    requires g in s.groups.at && s.groups.at[g].selected == 0
    requires Accumulated(s.groups, summed, settled, s.types.keys, ByGroup)
    ensures summed.at[g] == s.groups.at[g].(selected := Sum(States(settled, s.groups.at[g].members)))
  {
    GroupMembers(s, g);
    ChildrenInKeyOrder(settled, ByGroup, g, s.groups.at[g].members);
    SumWhereFiltered(settled, s.types.keys, ByGroup, g);
  }

  lemma ParentsPresent(s: Checkboxes)
    requires Structured(s)
    ensures forall c | c in s.charcs.at :: s.charcs.at[c].typeId in s.types.at
    ensures forall t | t in s.types.at :: s.types.at[t].group in s.groups.at
  {
    forall c | c in s.charcs.at ensures s.charcs.at[c].typeId in s.types.at {
      assert CharcOk(s, c);
    }
    forall t | t in s.types.at ensures s.types.at[t].group in s.groups.at {
      assert TypeOk(s, t);
    }
  }

  /** `updateSelected`, on the fresh types and groups `loadNewData` builds
      (all at state 0): types and groups take the states derived from their
      members, and the result is the `all` state. */
  method UpdateSelected(charcs: Dict, types: Dict, groups: Dict) returns (all: int, typesOut: Dict, groupsOut: Dict)
    requires Structured(Checkboxes(0, groups, types, charcs))
    requires forall t | t in types.at :: types.at[t].selected == 0
    requires forall g | g in groups.at :: groups.at[g].selected == 0
    ensures typesOut == Derived(types, charcs)
    ensures groupsOut == Derived(groups, typesOut)
    ensures all == AllOf(SumOfStates, groupsOut)
  {
    ParentsPresent(Checkboxes(0, groups, types, charcs));
    var summed := AddCharcStates(charcs, types);
    TypesHoldSums(charcs, types, groups, summed);
    var typesSettled, groupsSummed := SettleTypes(charcs, types, summed, groups);
    GroupsHoldSums(charcs, types, groups, groupsSummed);
    var groupsSettled, groupsSelected := SettleGroups(typesSettled, groups, groupsSummed);
    FromSumIsAggregate(States(groupsSettled, groupsSettled.keys));
    all := FromSum(groupsSelected, |groupsSettled.keys|);
    typesOut, groupsOut := typesSettled, groupsSettled;
  }

  /** `p` is `o` with every entry's state replaced by `f` of that entry. */
  ghost predicate Restated(o: Dict, p: Dict, f: Entity -> int) {
    && p.keys == o.keys && p.at.Keys == o.at.Keys
    && forall k | k in o.at :: p.at[k] == o.at[k].(selected := f(o.at[k]))
  }

  lemma RestatedShape(o: Dict, p: Dict, f: Entity -> int)
    requires Restated(o, p, f)
    ensures SameShape(o, p)
  {
  }

  /** Parents restated to 0 and then derived are the parents derived from
      the same children. */
  lemma DerivedRestated(parents: Dict, zeroed: Dict, children: Dict)
    requires Restated(parents, zeroed, (e: Entity) => 0)
    ensures Derived(zeroed, children) == Obj(parents.keys, map p | p in parents.at ::
      parents.at[p].(selected := Aggregate(SumOfStates, States(children, parents.at[p].members))))
  {
    var d := Derived(zeroed, children);
    forall p | p in parents.at
      ensures d.at[p] == parents.at[p].(selected := Aggregate(SumOfStates, States(children, parents.at[p].members)))
    {
      assert zeroed.at[p] == parents.at[p].(selected := 0);
    }
  }

  /** What `loadNewData` hands to `updateSelected`, and what it gets back,
      is what `Load` describes. */
  lemma LoadIsDerived(data: Checkboxes, state: Checkboxes, charcs: Dict, types: Dict, groups: Dict)
    requires Structured(data)
    requires Restated(data.charcs, charcs, (c: Entity) => KeptSelection(state, c.id))
    requires Restated(data.types, types, (e: Entity) => 0)
    requires Restated(data.groups, groups, (e: Entity) => 0)
    ensures Structured(Checkboxes(0, groups, types, charcs))
    ensures Load(SumOfStates, data, state).charcs == charcs
    ensures Load(SumOfStates, data, state).types == Derived(types, charcs)
    ensures Load(SumOfStates, data, state).groups == Derived(groups, Derived(types, charcs))
  {
    LoadStructured(data, state, charcs, types, groups);
    LoadCharcs(data, state, charcs);
    DerivedRestated(data.types, types, charcs);
    DerivedRestated(data.groups, groups, Derived(types, charcs));
  }

  lemma LoadStructured(data: Checkboxes, state: Checkboxes, charcs: Dict, types: Dict, groups: Dict)
    requires Structured(data)
    requires Restated(data.charcs, charcs, (c: Entity) => KeptSelection(state, c.id))
    requires Restated(data.types, types, (e: Entity) => 0)
    requires Restated(data.groups, groups, (e: Entity) => 0)
    ensures Structured(Checkboxes(0, groups, types, charcs))
  {
    RestatedShape(data.charcs, charcs, (c: Entity) => KeptSelection(state, c.id));
    RestatedShape(data.types, types, (e: Entity) => 0);
    RestatedShape(data.groups, groups, (e: Entity) => 0);
    ShapeKeepsStructure(data, Checkboxes(0, groups, types, charcs));
  }

  lemma LoadCharcs(data: Checkboxes, state: Checkboxes, charcs: Dict)
    requires Restated(data.charcs, charcs, (c: Entity) => KeptSelection(state, c.id))
    ensures Load(SumOfStates, data, state).charcs == charcs
  {
    assert charcs.at == Load(SumOfStates, data, state).charcs.at;
  }

  /** `loadNewData`: copies of the new entries, characteristics keeping the
      state they had, then the states derived by `updateSelected`. */
  method LoadNewData(data: Checkboxes, state: Checkboxes) returns (r: Checkboxes)
    requires Structured(data)
    ensures r == Load(SumOfStates, data, state)
  {
    var newCharcs := CopyWith(data.charcs, (c: Entity) => c.(selected := KeptSelection(state, c.id)));
    var newTypes := CopyWith(data.types, (t: Entity) => t.(selected := 0));
    var newGroups := CopyWith(data.groups, (g: Entity) => g.(selected := 0));
    LoadIsDerived(data, state, newCharcs, newTypes, newGroups);
    var all, types, groups := UpdateSelected(newCharcs, newTypes, newGroups);
    r := Checkboxes(all, groups, types, newCharcs);
  }

  /** `checkboxReducer`: an unknown action type throws. */
  method CheckboxReducer(s: Checkboxes, a: Action) returns (r: Result<Checkboxes>)
    requires KeyedById(s.groups) && KeyedById(s.types) && KeyedById(s.charcs)
    requires a.LoadData? ==> Structured(a.data)
    ensures r == Reduce(SumOfStates, s, a)
  {
    match a
    case All =>
      var t := ToggleAll(s);
      return Ok(t);
    case LoadData(data) =>
      var l := LoadNewData(data, s);
      return Ok(l);
    case ToggleGroup(id) =>
      r := Toggle(s, GroupLevel, id);
    case ToggleType(id) =>
      r := Toggle(s, TypeLevel, id);
    case ToggleCharacteristic(id) =>
      r := Toggle(s, CharacteristicLevel, id);
    case Unknown(_) =>
      return Err(InvalidAction);
  }
}
