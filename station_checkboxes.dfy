/** The tri-state checkboxes of a monitoring station's download section.
    Characteristic groups contain characteristic types, which contain
    characteristics; each box is unchecked (0), checked (1) or
    indeterminate (2), and one more box stands for everything (`all`).
    This module states what the checkbox state means and what each reducer
    action does to it; the loops that compute the actions are in
    `StationReducer`. */
module StationCheckboxes {
  import opened Wrappers
  import opened JsObjects

  /** One checkbox entry. `members` lists a group's types or a type's
      characteristics (empty for a characteristic); `group` is the group of a
      type or characteristic and `typeId` the type of a characteristic (both
      unused for a group). */
  datatype Entity = Entity(id: string, count: int, group: string, typeId: string,
                           members: seq<string>, selected: int)

  type Dict = Obj<Entity>

  datatype Checkboxes = Checkboxes(all: int, groups: Dict, types: Dict, charcs: Dict)

  /** `initialCheckboxes` */
  function InitialCheckboxes(): Checkboxes {
    Checkboxes(0, Empty(), Empty(), Empty())
  }

  /** How a parent's state is derived from its children's states.
      `SumOfStates` is the code as written: the states are added up, so an
      indeterminate child weighs as much as two checked ones.
      `ChildStates` is the evidently intended rule: unchecked when every
      child is unchecked, checked when every child is checked, indeterminate
      otherwise. */
  datatype Rule = SumOfStates | ChildStates

  function Sum(xs: seq<int>): int {
    if |xs| == 0 then 0 else xs[0] + Sum(xs[1..])
  }

  predicate AllEq(xs: seq<int>, v: int) {
    forall i | 0 <= i < |xs| :: xs[i] == v
  }

  function Aggregate(rule: Rule, xs: seq<int>): (r: int)
    ensures 0 <= r <= 2
    ensures rule == ChildStates && |xs| > 0 ==> (r == 0 <==> AllEq(xs, 0)) && (r == 1 <==> AllEq(xs, 1))
    ensures rule == SumOfStates ==> (r == 0 <==> Sum(xs) == 0) && (r == 1 <==> Sum(xs) != 0 && Sum(xs) == |xs|)
  {
    match rule
    case SumOfStates =>
      if Sum(xs) == 0 then 0 else if Sum(xs) == |xs| then 1 else 2
    case ChildStates =>
      assert |xs| > 0 ==> (AllEq(xs, 0) ==> xs[0] == 0) && (AllEq(xs, 1) ==> xs[0] == 1);
      if AllEq(xs, 0) then 0 else if AllEq(xs, 1) then 1 else 2
  }

  lemma {:induction false} SumBinary(xs: seq<int>)
    requires forall i | 0 <= i < |xs| :: xs[i] == 0 || xs[i] == 1
    ensures 0 <= Sum(xs) <= |xs|
    ensures Sum(xs) == 0 <==> AllEq(xs, 0)
    ensures Sum(xs) == |xs| <==> AllEq(xs, 1)
  {
    if |xs| > 0 {
      SumBinary(xs[1..]);
      assert forall i | 1 <= i < |xs| :: xs[i] == xs[1..][i - 1];
    }
  }

  /** The two rules agree as long as no child is indeterminate; so they
      agree on types, whose children are characteristics. */
  lemma RulesAgreeOnBinary(xs: seq<int>)
    requires forall i | 0 <= i < |xs| :: xs[i] == 0 || xs[i] == 1
    ensures Aggregate(SumOfStates, xs) == Aggregate(ChildStates, xs)
  {
    SumBinary(xs);
  }

  /** With an indeterminate child they disagree: one indeterminate and one
      unchecked child make a checked parent under the code as written. */
  lemma RulesDisagree()
    ensures Aggregate(SumOfStates, [2, 0]) == 1
    ensures Aggregate(ChildStates, [2, 0]) == 2
  {
    assert Sum([2, 0]) == 2;
    assert !AllEq([2, 0], 0) && !AllEq([2, 0], 1);
  }

  lemma {:induction false} SumUniform(xs: seq<int>, v: int)
    requires AllEq(xs, v)
    ensures Sum(xs) == v * |xs|
  {
    if |xs| > 0 {
      SumUniform(xs[1..], v);
    }
  }

  /** Children all checked, or all unchecked, give the parent that same
      state under either rule. */
  lemma AggregateUniform(rule: Rule, xs: seq<int>, v: int)
    requires |xs| > 0 && (v == 0 || v == 1) && AllEq(xs, v)
    ensures Aggregate(rule, xs) == v
  {
    SumUniform(xs, v);
  }

  /** The state of the entry `x`; 0 when it is absent (the callers check
      presence first, as the source would throw). */
  function Sel(o: Dict, x: string): int {
    if x in o.at then o.at[x].selected else 0
  }

  function States(o: Dict, ids: seq<string>): (r: seq<int>)
    ensures |r| == |ids|
  {
    seq(|ids|, i requires 0 <= i < |ids| => Sel(o, ids[i]))
  }

  predicate Covers(o: Dict, ids: seq<string>) {
    forall x | x in ids :: x in o.at
  }

  lemma StatesAllEq(o: Dict, ids: seq<string>, v: int)
    requires Covers(o, ids)
    ensures AllEq(States(o, ids), v) <==> forall x | x in ids :: o.at[x].selected == v
  {
    if forall x | x in ids :: o.at[x].selected == v {
      var xs := States(o, ids);
      forall i | 0 <= i < |xs| ensures xs[i] == v {
        assert ids[i] in ids;
      }
    }
    if AllEq(States(o, ids), v) {
      forall x | x in ids ensures o.at[x].selected == v {
        var i :| 0 <= i < |ids| && ids[i] == x;
        assert States(o, ids)[i] == v;
      }
    }
  }

  /** The states of `ids` only depend on the states of those entries. */
  lemma StatesFrame(a: Dict, b: Dict, ids: seq<string>)
    requires forall x | x in ids :: Sel(a, x) == Sel(b, x)
    ensures States(a, ids) == States(b, ids)
  {
    var xa, xb := States(a, ids), States(b, ids);
    forall i | 0 <= i < |ids| ensures xa[i] == xb[i] {
      assert ids[i] in ids;
    }
  }

  /** `updateEntity`, and the assignment of a parent in `updateParent`. */
  function SetSelected(o: Dict, id: string, v: int): (r: Dict)
    requires id in o.at
    ensures r.keys == o.keys && r.at == o.at[id := o.at[id].(selected := v)]
  {
    o.Put(id, o.at[id].(selected := v))
  }

  /** `updateParent`: the parent's state derived from its own children. */
  function UpdateParentSpec(rule: Rule, parents: Dict, children: Dict, parentId: string): (r: Dict)
    requires parentId in parents.at
    ensures r.keys == parents.keys
    ensures r.at == parents.at[parentId := parents.at[parentId].(
      selected := Aggregate(rule, States(children, parents.at[parentId].members)))]
  {
    SetSelected(parents, parentId, Aggregate(rule, States(children, parents.at[parentId].members)))
  }

  /** The field `updateDescendants` compares with the toggled id. */
  datatype Ref = ByGroup | ByType

  function RefOf(e: Entity, ref: Ref): string {
    if ref == ByGroup then e.group else e.typeId
  }

  /** `updateDescendants`: every entry whose group (or type) is `id` takes
      the state `v`; the others are unchanged. */
  function Descendants(o: Dict, ref: Ref, id: string, v: int): (r: Dict)
    ensures r.keys == o.keys && r.at.Keys == o.at.Keys
    ensures forall k | k in o.at ::
      r.at[k] == if RefOf(o.at[k], ref) == id then o.at[k].(selected := v) else o.at[k]
  {
    Obj(o.keys, map k | k in o.at :: if RefOf(o.at[k], ref) == id then o.at[k].(selected := v) else o.at[k])
  }

  /** The `all` box derived from the groups. */
  function AllOf(rule: Rule, groups: Dict): int {
    Aggregate(rule, States(groups, groups.keys))
  }

  /** The state a toggled box takes: checked from unchecked, unchecked from
      checked or indeterminate. */
  function Next(selected: int): (r: int)
    ensures r == 0 || r == 1
    ensures r == 1 <==> selected == 0
  {
    if selected == 0 then 1 else 0
  }

  datatype Level = GroupLevel | TypeLevel | CharacteristicLevel

  /** `toggle`: flips one box, pushes the new state down to its descendants
      or up to its ancestors, and derives `all` from the groups. Reading an
      entry that is not there is a `TypeError`, as in the source. */
  function Toggle(rule: Rule, s: Checkboxes, level: Level, id: string): Result<Checkboxes> {
    match level
    case CharacteristicLevel =>
      if id !in s.charcs.at then Err(TypeError)
      else
        var e := s.charcs.at[id];
        var charcs := SetSelected(s.charcs, id, Next(e.selected));
        if e.typeId !in s.types.at || !Covers(charcs, s.types.at[e.typeId].members) then Err(TypeError)
        else
          var types := UpdateParentSpec(rule, s.types, charcs, e.typeId);
          if e.group !in s.groups.at || !Covers(types, s.groups.at[e.group].members) then Err(TypeError)
          else
            var groups := UpdateParentSpec(rule, s.groups, types, e.group);
            Ok(Checkboxes(AllOf(rule, groups), groups, types, charcs))
    case GroupLevel =>
      if id !in s.groups.at then Err(TypeError)
      else
        var v := Next(s.groups.at[id].selected);
        var groups := SetSelected(s.groups, id, v);
        Ok(Checkboxes(AllOf(rule, groups), groups,
                      Descendants(s.types, ByGroup, id, v), Descendants(s.charcs, ByGroup, id, v)))
    case TypeLevel =>
      if id !in s.types.at then Err(TypeError)
      else
        var e := s.types.at[id];
        var v := Next(e.selected);
        var types := SetSelected(s.types, id, v);
        var charcs := Descendants(s.charcs, ByType, id, v);
        if e.group !in s.groups.at || !Covers(types, s.groups.at[e.group].members) then Err(TypeError)
        else
          var groups := UpdateParentSpec(rule, s.groups, types, e.group);
          Ok(Checkboxes(AllOf(rule, groups), groups, types, charcs))
  }

  function SetAll(o: Dict, v: int): (r: Dict)
    ensures r.keys == o.keys && r.at.Keys == o.at.Keys
    ensures forall k | k in o.at :: r.at[k] == o.at[k].(selected := v)
  {
    Obj(o.keys, map k | k in o.at :: o.at[k].(selected := v))
  }

  /** `toggleAll`: every box takes the same state, checked when `all` was
      unchecked and unchecked otherwise. */
  function ToggleAll(s: Checkboxes): Checkboxes {
    var v := Next(s.all);
    Checkboxes(v, SetAll(s.groups, v), SetAll(s.types, v), SetAll(s.charcs, v))
  }

  /** The state `loadNewData` keeps for a characteristic: its current one
      when it is already known, checked when it is new. */
  function KeptSelection(state: Checkboxes, id: string): int {
    if id in state.charcs.at then state.charcs.at[id].selected else 1
  }

  /** `loadNewData`: the new characteristics with their kept selections, and
      types, groups and `all` derived from them. */
  function Load(rule: Rule, data: Checkboxes, state: Checkboxes): Checkboxes {
    var charcs := Obj(data.charcs.keys, map k | k in data.charcs.at ::
      data.charcs.at[k].(selected := KeptSelection(state, data.charcs.at[k].id)));
    var types := Obj(data.types.keys, map t | t in data.types.at ::
      data.types.at[t].(selected := Aggregate(rule, States(charcs, data.types.at[t].members))));
    var groups := Obj(data.groups.keys, map g | g in data.groups.at ::
      data.groups.at[g].(selected := Aggregate(rule, States(types, data.groups.at[g].members))));
    Checkboxes(AllOf(rule, groups), groups, types, charcs)
  }

  /** The reducer's actions; `Unknown` is any other action type. */
  datatype Action =
    | All
    | LoadData(data: Checkboxes)
    | ToggleGroup(id: string)
    | ToggleType(id: string)
    | ToggleCharacteristic(id: string)
    | Unknown(kind: string)

  /** `checkboxReducer`: an unknown action type throws; a toggle of an id
      that is not in the state throws a `TypeError` when it reads it. */
  function Reduce(rule: Rule, s: Checkboxes, a: Action): (r: Result<Checkboxes>)
    ensures a.Unknown? <==> r == Err(InvalidAction)
    ensures a.ToggleGroup? && a.id !in s.groups.at ==> r == Err(TypeError)
    ensures a.ToggleType? && a.id !in s.types.at ==> r == Err(TypeError)
    ensures a.ToggleCharacteristic? && a.id !in s.charcs.at ==> r == Err(TypeError)
  {
    match a
    case All => Ok(ToggleAll(s))
    case LoadData(data) => Ok(Load(rule, data, s))
    case ToggleGroup(id) => Toggle(rule, s, GroupLevel, id)
    case ToggleType(id) => Toggle(rule, s, TypeLevel, id)
    case ToggleCharacteristic(id) => Toggle(rule, s, CharacteristicLevel, id)
    case Unknown(_) => Err(InvalidAction)
  }

  // ---------------------------------------------------------------------
  // Well-formed states

  /** Every key names the entry stored under it. */
  ghost predicate KeyedById(o: Dict) {
    o.Valid() && forall k | k in o.at :: o.at[k].id == k
  }

  ghost predicate GroupOk(s: Checkboxes, g: string)
    requires g in s.groups.at
  {
    var m := s.groups.at[g].members;
    && |m| > 0 && Distinct(m)
    && forall t | t in m :: t in s.types.at && s.types.at[t].group == g
  }

  ghost predicate TypeOk(s: Checkboxes, t: string)
    requires t in s.types.at
  {
    var e := s.types.at[t];
    && e.group in s.groups.at && t in s.groups.at[e.group].members
    && |e.members| > 0 && Distinct(e.members)
    && forall c | c in e.members :: c in s.charcs.at && s.charcs.at[c].typeId == t
  }

  ghost predicate CharcOk(s: Checkboxes, c: string)
    requires c in s.charcs.at
  {
    var e := s.charcs.at[c];
    && e.typeId in s.types.at && c in s.types.at[e.typeId].members
    && e.group == s.types.at[e.typeId].group
  }

  /** The shape `parseCharcs` builds: each group lists its types and each
      type its characteristics, without repetition and never empty, and
      every entry points back at its parents. */
  ghost predicate Structured(s: Checkboxes) {
    && KeyedById(s.groups) && KeyedById(s.types) && KeyedById(s.charcs)
    && (forall g | g in s.groups.at :: GroupOk(s, g))
    && (forall t | t in s.types.at :: TypeOk(s, t))
    && (forall c | c in s.charcs.at :: CharcOk(s, c))
  }

  ghost predicate InRange(s: Checkboxes) {
    && 0 <= s.all <= 2
    && (forall g | g in s.groups.at :: 0 <= s.groups.at[g].selected <= 2)
    && (forall t | t in s.types.at :: 0 <= s.types.at[t].selected <= 2)
    && (forall c | c in s.charcs.at :: s.charcs.at[c].selected == 0 || s.charcs.at[c].selected == 1)
  }

  ghost predicate Wf(s: Checkboxes) {
    Structured(s) && InRange(s)
  }

  ghost predicate TypesConsistent(rule: Rule, s: Checkboxes) {
    forall t | t in s.types.at ::
      s.types.at[t].selected == Aggregate(rule, States(s.charcs, s.types.at[t].members))
  }

  ghost predicate GroupsConsistent(rule: Rule, s: Checkboxes) {
    forall g | g in s.groups.at ::
      s.groups.at[g].selected == Aggregate(rule, States(s.types, s.groups.at[g].members))
  }

  /** Every type and group shows what `rule` derives from its children, and
      `all` what it derives from the groups (once there are any). */
  ghost predicate Consistent(rule: Rule, s: Checkboxes) {
    && TypesConsistent(rule, s)
    && GroupsConsistent(rule, s)
    && (|s.groups.keys| > 0 ==> s.all == AllOf(rule, s.groups))
  }

  lemma InitialWf(rule: Rule)
    ensures Wf(InitialCheckboxes()) && Consistent(rule, InitialCheckboxes())
  {
  }

  /** Entries that differ at most in their state. */
  predicate SameBut(a: Entity, b: Entity) {
    a.id == b.id && a.count == b.count && a.group == b.group && a.typeId == b.typeId && a.members == b.members
  }

  /** Dictionaries with the same keys whose entries differ at most in their
      state. */
  ghost predicate SameShape(a: Dict, b: Dict) {
    a.keys == b.keys && a.at.Keys == b.at.Keys && forall k | k in a.at :: SameBut(a.at[k], b.at[k])
  }

  /** Changing states alone keeps the structure. */
  lemma ShapeKeepsStructure(s: Checkboxes, r: Checkboxes)
    requires Structured(s)
    requires SameShape(s.groups, r.groups) && SameShape(s.types, r.types) && SameShape(s.charcs, r.charcs)
    ensures Structured(r)
  {
    forall g | g in r.groups.at ensures GroupOk(r, g) {
      assert GroupOk(s, g);
    }
    forall t | t in r.types.at ensures TypeOk(r, t) {
      assert TypeOk(s, t);
    }
    forall c | c in r.charcs.at ensures CharcOk(r, c) {
      assert CharcOk(s, c);
    }
  }

  lemma DescendantsShape(o: Dict, ref: Ref, id: string, v: int)
    requires KeyedById(o)
    ensures SameShape(o, Descendants(o, ref, id, v))
  {
  }

  lemma SetSelectedShape(o: Dict, id: string, v: int)
    requires KeyedById(o) && id in o.at
    ensures SameShape(o, SetSelected(o, id, v)) && KeyedById(SetSelected(o, id, v))
  {
    PutValid(o, id, o.at[id].(selected := v));
  }

  // ---------------------------------------------------------------------
  // Each action keeps a well-formed, consistent state so

  /** The state a characteristic toggle builds, spelled out. */
  predicate CharacteristicToggled(rule: Rule, s: Checkboxes, id: string, r: Checkboxes)
    requires id in s.charcs.at
  {
    var e := s.charcs.at[id];
    && e.typeId in s.types.at && e.group in s.groups.at
    && r.charcs == SetSelected(s.charcs, id, Next(e.selected))
    && r.types == UpdateParentSpec(rule, s.types, r.charcs, e.typeId)
    && r.groups == UpdateParentSpec(rule, s.groups, r.types, e.group)
    && r.all == AllOf(rule, r.groups)
  }

  lemma CharacteristicToggleResult(rule: Rule, s: Checkboxes, id: string) returns (r: Checkboxes)
    requires Structured(s) && id in s.charcs.at
    ensures CharacteristicToggled(rule, s, id, r)
    ensures Toggle(rule, s, CharacteristicLevel, id) == Ok(r)
  {
    var e := s.charcs.at[id];
    assert CharcOk(s, id);
    assert TypeOk(s, e.typeId);
    assert GroupOk(s, e.group);
    r := CharacteristicToggleCovered(rule, s, id);
  }

  /** The toggle reads only the characteristic's type and group, and the
      entries those list. */
  lemma CharacteristicToggleCovered(rule: Rule, s: Checkboxes, id: string) returns (r: Checkboxes)
    requires id in s.charcs.at
    requires s.charcs.at[id].typeId in s.types.at && s.charcs.at[id].group in s.groups.at
    requires forall c | c in s.types.at[s.charcs.at[id].typeId].members :: c in s.charcs.at
    requires forall t | t in s.groups.at[s.charcs.at[id].group].members :: t in s.types.at
    ensures CharacteristicToggled(rule, s, id, r)
    ensures Toggle(rule, s, CharacteristicLevel, id) == Ok(r)
  {
    var e := s.charcs.at[id];
    var charcs := SetSelected(s.charcs, id, Next(e.selected));
    var types := UpdateParentSpec(rule, s.types, charcs, e.typeId);
    var groups := UpdateParentSpec(rule, s.groups, types, e.group);
    r := Checkboxes(AllOf(rule, groups), groups, types, charcs);
  }

  lemma CharacteristicToggleRange(rule: Rule, s: Checkboxes, id: string, r: Checkboxes)
    requires InRange(s) && id in s.charcs.at && CharacteristicToggled(rule, s, id, r)
    ensures InRange(r)
  {
  }

  lemma CharacteristicToggleShape(rule: Rule, s: Checkboxes, id: string, r: Checkboxes)
    requires Structured(s) && id in s.charcs.at && CharacteristicToggled(rule, s, id, r)
    ensures Structured(r)
  {
    var e := s.charcs.at[id];
    SetSelectedShape(s.charcs, id, Next(e.selected));
    SetSelectedShape(s.types, e.typeId, r.types.at[e.typeId].selected);
    SetSelectedShape(s.groups, e.group, r.groups.at[e.group].selected);
    ShapeKeepsStructure(s, r);
  }

  lemma CharacteristicToggleTypes(rule: Rule, s: Checkboxes, id: string, r: Checkboxes)
    requires Structured(s) && TypesConsistent(rule, s) && id in s.charcs.at
    requires CharacteristicToggled(rule, s, id, r)
    ensures TypesConsistent(rule, r)
  {
    var t := s.charcs.at[id].typeId;
    forall t2 | t2 in r.types.at && t2 != t
      ensures r.types.at[t2].selected == Aggregate(rule, States(r.charcs, r.types.at[t2].members))
    {
      assert TypeOk(s, t2);
      SetSelectedElsewhere(s.charcs, id, Next(s.charcs.at[id].selected), t2, s.types.at[t2].members);
    }
  }

  /** Changing a characteristic of one type keeps the states of another
      type's characteristics. */
  lemma SetSelectedElsewhere(o: Dict, id: string, v: int, t: string, m: seq<string>)
    requires id in o.at && o.at[id].typeId != t
    requires forall c | c in m :: c in o.at && o.at[c].typeId == t
    ensures States(SetSelected(o, id, v), m) == States(o, m)
  {
    StatesFrame(SetSelected(o, id, v), o, m);
  }

  lemma CharacteristicToggleGroups(rule: Rule, s: Checkboxes, id: string, r: Checkboxes)
    requires Structured(s) && GroupsConsistent(rule, s) && id in s.charcs.at
    requires CharacteristicToggled(rule, s, id, r)
    ensures GroupsConsistent(rule, r)
  {
    var e := s.charcs.at[id];
    assert CharcOk(s, id);
    forall g2 | g2 in r.groups.at && g2 != e.group
      ensures r.groups.at[g2].selected == Aggregate(rule, States(r.types, r.groups.at[g2].members))
    {
      assert GroupOk(s, g2);
      StatesFrame(r.types, s.types, s.groups.at[g2].members);
    }
  }

  lemma ToggleCharacteristicKeeps(rule: Rule, s: Checkboxes, id: string)
    requires Wf(s) && Consistent(rule, s) && id in s.charcs.at
    ensures Toggle(rule, s, CharacteristicLevel, id).Ok?
    ensures Wf(Toggle(rule, s, CharacteristicLevel, id).value)
    ensures Consistent(rule, Toggle(rule, s, CharacteristicLevel, id).value)
  {
    var r := CharacteristicToggleResult(rule, s, id);
    CharacteristicToggleShape(rule, s, id, r);
    CharacteristicToggleRange(rule, s, id, r);
    CharacteristicToggleTypes(rule, s, id, r);
    CharacteristicToggleGroups(rule, s, id, r);
  }

  /** The state a group toggle builds, spelled out. */
  predicate GroupToggled(rule: Rule, s: Checkboxes, id: string, r: Checkboxes)
    requires id in s.groups.at
  {
    var v := Next(s.groups.at[id].selected);
    && r.groups == SetSelected(s.groups, id, v)
    && r.types == Descendants(s.types, ByGroup, id, v)
    && r.charcs == Descendants(s.charcs, ByGroup, id, v)
    && r.all == AllOf(rule, r.groups)
  }

  lemma GroupToggleResult(rule: Rule, s: Checkboxes, id: string) returns (r: Checkboxes)
    requires id in s.groups.at
    ensures GroupToggled(rule, s, id, r)
    ensures Toggle(rule, s, GroupLevel, id) == Ok(r)
  {
    var v := Next(s.groups.at[id].selected);
    var groups := SetSelected(s.groups, id, v);
    r := Checkboxes(AllOf(rule, groups), groups,
                    Descendants(s.types, ByGroup, id, v), Descendants(s.charcs, ByGroup, id, v));
  }

  lemma GroupToggleRange(rule: Rule, s: Checkboxes, id: string, r: Checkboxes)
    requires InRange(s) && id in s.groups.at && GroupToggled(rule, s, id, r)
    ensures InRange(r)
  {
  }

  lemma GroupToggleShape(rule: Rule, s: Checkboxes, id: string, r: Checkboxes)
    requires Structured(s) && id in s.groups.at && GroupToggled(rule, s, id, r)
    ensures Structured(r)
  {
    var v := Next(s.groups.at[id].selected);
    SetSelectedShape(s.groups, id, v);
    DescendantsShape(s.types, ByGroup, id, v);
    DescendantsShape(s.charcs, ByGroup, id, v);
    ShapeKeepsStructure(s, r);
  }

  lemma GroupToggleTypes(rule: Rule, s: Checkboxes, id: string, r: Checkboxes)
    requires Structured(s) && TypesConsistent(rule, s) && id in s.groups.at
    requires GroupToggled(rule, s, id, r)
    ensures TypesConsistent(rule, r)
  {
    var v := Next(s.groups.at[id].selected);
    forall t | t in r.types.at
      ensures r.types.at[t].selected == Aggregate(rule, States(r.charcs, r.types.at[t].members))
    {
      assert TypeOk(s, t);
      var m := s.types.at[t].members;
      forall c | c in m ensures Sel(r.charcs, c) == (if s.types.at[t].group == id then v else Sel(s.charcs, c)) {
        assert CharcOk(s, c);
      }
      if s.types.at[t].group == id {
        StatesAllEq(r.charcs, m, v);
        AggregateUniform(rule, States(r.charcs, m), v);
      } else {
        StatesFrame(r.charcs, s.charcs, m);
      }
    }
  }

  lemma GroupToggleGroups(rule: Rule, s: Checkboxes, id: string, r: Checkboxes)
    requires Structured(s) && GroupsConsistent(rule, s) && id in s.groups.at
    requires GroupToggled(rule, s, id, r)
    ensures GroupsConsistent(rule, r)
  {
    var v := Next(s.groups.at[id].selected);
    forall g | g in r.groups.at
      ensures r.groups.at[g].selected == Aggregate(rule, States(r.types, r.groups.at[g].members))
    {
      assert GroupOk(s, g);
      var m := s.groups.at[g].members;
      if g == id {
        StatesAllEq(r.types, m, v);
        AggregateUniform(rule, States(r.types, m), v);
      } else {
        StatesFrame(r.types, s.types, m);
      }
    }
  }

  lemma ToggleGroupKeeps(rule: Rule, s: Checkboxes, id: string)
    requires Wf(s) && Consistent(rule, s) && id in s.groups.at
    ensures Toggle(rule, s, GroupLevel, id).Ok?
    ensures Wf(Toggle(rule, s, GroupLevel, id).value)
    ensures Consistent(rule, Toggle(rule, s, GroupLevel, id).value)
  {
    var r := GroupToggleResult(rule, s, id);
    GroupToggleShape(rule, s, id, r);
    GroupToggleRange(rule, s, id, r);
    GroupToggleTypes(rule, s, id, r);
    GroupToggleGroups(rule, s, id, r);
  }

  /** The state a type toggle builds, spelled out. */
  predicate TypeToggled(rule: Rule, s: Checkboxes, id: string, r: Checkboxes)
    requires id in s.types.at
  {
    var e := s.types.at[id];
    var v := Next(e.selected);
    && e.group in s.groups.at
    && r.types == SetSelected(s.types, id, v)
    && r.charcs == Descendants(s.charcs, ByType, id, v)
    && r.groups == UpdateParentSpec(rule, s.groups, r.types, e.group)
    && r.all == AllOf(rule, r.groups)
  }

  lemma TypeToggleResult(rule: Rule, s: Checkboxes, id: string) returns (r: Checkboxes)
    requires Structured(s) && id in s.types.at
    ensures TypeToggled(rule, s, id, r)
    ensures Toggle(rule, s, TypeLevel, id) == Ok(r)
  {
    var e := s.types.at[id];
    assert TypeOk(s, id);
    assert GroupOk(s, e.group);
    var v := Next(e.selected);
    var types := SetSelected(s.types, id, v);
    var charcs := Descendants(s.charcs, ByType, id, v);
    var groups := UpdateParentSpec(rule, s.groups, types, e.group);
    r := Checkboxes(AllOf(rule, groups), groups, types, charcs);
  }

  lemma TypeToggleRange(rule: Rule, s: Checkboxes, id: string, r: Checkboxes)
    requires InRange(s) && id in s.types.at && TypeToggled(rule, s, id, r)
    ensures InRange(r)
  {
  }

  lemma TypeToggleShape(rule: Rule, s: Checkboxes, id: string, r: Checkboxes)
    requires Structured(s) && id in s.types.at && TypeToggled(rule, s, id, r)
    ensures Structured(r)
  {
    var e := s.types.at[id];
    SetSelectedShape(s.types, id, Next(e.selected));
    DescendantsShape(s.charcs, ByType, id, Next(e.selected));
    SetSelectedShape(s.groups, e.group, Aggregate(rule, States(r.types, s.groups.at[e.group].members)));
    ShapeKeepsStructure(s, r);
  }

  lemma TypeToggleTypes(rule: Rule, s: Checkboxes, id: string, r: Checkboxes)
    requires Structured(s) && TypesConsistent(rule, s) && id in s.types.at
    requires TypeToggled(rule, s, id, r)
    ensures TypesConsistent(rule, r)
  {
    forall t | t in r.types.at
      ensures r.types.at[t].selected == Aggregate(rule, States(r.charcs, r.types.at[t].members))
    {
      TypeToggleType(rule, s, id, r, t);
    }
  }

  lemma TypeToggleType(rule: Rule, s: Checkboxes, id: string, r: Checkboxes, t: string)
    requires Structured(s) && TypesConsistent(rule, s) && id in s.types.at
    requires TypeToggled(rule, s, id, r) && t in r.types.at
    ensures r.types.at[t].selected == Aggregate(rule, States(r.charcs, r.types.at[t].members))
  {
    if t == id {
      assert TypeOk(s, id);
      TypeToggleSelf(rule, s, id, r.types, r.charcs);
    } else {
      assert TypeOk(s, t);
      var v := Next(s.types.at[id].selected);
      DescendantsElsewhere(s.charcs, id, v, t, s.types.at[t].members);
    }
  }

  /** The characteristics of another type keep their states. */
  lemma DescendantsElsewhere(o: Dict, id: string, v: int, t: string, m: seq<string>)
    requires t != id && forall c | c in m :: c in o.at && o.at[c].typeId == t
    ensures States(Descendants(o, ByType, id, v), m) == States(o, m)
  {
    StatesFrame(Descendants(o, ByType, id, v), o, m);
  }

  /** The toggled type shows its own new state, which all its
      characteristics now hold. */
  lemma TypeToggleSelf(rule: Rule, s: Checkboxes, id: string, types: Dict, charcs: Dict)
    requires id in s.types.at && TypeOk(s, id)
    requires types == SetSelected(s.types, id, Next(s.types.at[id].selected))
    requires charcs == Descendants(s.charcs, ByType, id, Next(s.types.at[id].selected))
    ensures types.at[id].selected == Aggregate(rule, States(charcs, types.at[id].members))
  {
    var v := Next(s.types.at[id].selected);
    var m := s.types.at[id].members;
    assert types.at[id].members == m;
    forall c | c in m ensures c in charcs.at && charcs.at[c].selected == v {
      assert RefOf(s.charcs.at[c], ByType) == id;
    }
    StatesAllEq(charcs, m, v);
    AggregateUniform(rule, States(charcs, m), v);
  }

  lemma TypeToggleGroups(rule: Rule, s: Checkboxes, id: string, r: Checkboxes)
    requires Structured(s) && GroupsConsistent(rule, s) && id in s.types.at
    requires TypeToggled(rule, s, id, r)
    ensures GroupsConsistent(rule, r)
  {
    var g := s.types.at[id].group;
    forall g2 | g2 in r.groups.at && g2 != g
      ensures r.groups.at[g2].selected == Aggregate(rule, States(r.types, r.groups.at[g2].members))
    {
      assert GroupOk(s, g2);
      StatesFrame(r.types, s.types, s.groups.at[g2].members);
    }
  }

  lemma ToggleTypeKeeps(rule: Rule, s: Checkboxes, id: string)
    requires Wf(s) && Consistent(rule, s) && id in s.types.at
    ensures Toggle(rule, s, TypeLevel, id).Ok?
    ensures Wf(Toggle(rule, s, TypeLevel, id).value)
    ensures Consistent(rule, Toggle(rule, s, TypeLevel, id).value)
  {
    var r := TypeToggleResult(rule, s, id);
    TypeToggleShape(rule, s, id, r);
    TypeToggleRange(rule, s, id, r);
    TypeToggleTypes(rule, s, id, r);
    TypeToggleGroups(rule, s, id, r);
  }

  lemma ToggleAllConsistent(rule: Rule, s: Checkboxes)
    requires Structured(s)
    ensures Consistent(rule, ToggleAll(s))
  {
    var r := ToggleAll(s);
    var v := r.all;
    forall t | t in r.types.at
      ensures r.types.at[t].selected == Aggregate(rule, States(r.charcs, r.types.at[t].members))
    {
      assert TypeOk(s, t);
      StatesAllEq(r.charcs, r.types.at[t].members, v);
      AggregateUniform(rule, States(r.charcs, r.types.at[t].members), v);
    }
    forall g | g in r.groups.at
      ensures r.groups.at[g].selected == Aggregate(rule, States(r.types, r.groups.at[g].members))
    {
      assert GroupOk(s, g);
      StatesAllEq(r.types, r.groups.at[g].members, v);
      AggregateUniform(rule, States(r.types, r.groups.at[g].members), v);
    }
    if |r.groups.keys| > 0 {
      assert Covers(r.groups, r.groups.keys);
      StatesAllEq(r.groups, r.groups.keys, v);
      AggregateUniform(rule, States(r.groups, r.groups.keys), v);
    }
  }

  /** After `toggleAll` every box shows the same state, and the state is
      well formed and consistent under either rule. */
  lemma ToggleAllKeeps(rule: Rule, s: Checkboxes)
    requires Structured(s)
    ensures Wf(ToggleAll(s)) && Consistent(rule, ToggleAll(s))
    ensures forall c | c in ToggleAll(s).charcs.at :: ToggleAll(s).charcs.at[c].selected == ToggleAll(s).all
    ensures ToggleAll(s).all == 1 <==> s.all == 0
  {
    ShapeKeepsStructure(s, ToggleAll(s));
    ToggleAllConsistent(rule, s);
  }

  lemma LoadShape(rule: Rule, data: Checkboxes, state: Checkboxes)
    requires Structured(data)
    requires forall c | c in state.charcs.at :: state.charcs.at[c].selected == 0 || state.charcs.at[c].selected == 1
    ensures Wf(Load(rule, data, state))
  {
    LoadSameShape(rule, data, state);
    ShapeKeepsStructure(data, Load(rule, data, state));
  }

  lemma LoadSameShape(rule: Rule, data: Checkboxes, state: Checkboxes)
    ensures var l := Load(rule, data, state);
      SameShape(data.groups, l.groups) && SameShape(data.types, l.types) && SameShape(data.charcs, l.charcs)
  {
  }

  lemma LoadConsistent(rule: Rule, data: Checkboxes, state: Checkboxes)
    requires Structured(data)
    ensures Consistent(rule, Load(rule, data, state))
  {
  }

  /** Loading data of the right shape gives a well-formed state consistent
      under the rule used, in which every known characteristic keeps its
      state and every new one is checked. */
  lemma LoadKeeps(rule: Rule, data: Checkboxes, state: Checkboxes)
    requires Structured(data)
    requires forall c | c in state.charcs.at :: state.charcs.at[c].selected == 0 || state.charcs.at[c].selected == 1
    ensures Wf(Load(rule, data, state)) && Consistent(rule, Load(rule, data, state))
    ensures forall c | c in Load(rule, data, state).charcs.at ::
      Load(rule, data, state).charcs.at[c].selected == KeptSelection(state, c)
  {
    LoadShape(rule, data, state);
    LoadConsistent(rule, data, state);
  }

  /** Every reducer action keeps a well-formed, consistent state so; a
      toggle of a present entry never throws. */
  lemma ReduceKeeps(rule: Rule, s: Checkboxes, a: Action)
    requires Wf(s) && Consistent(rule, s)
    requires a.LoadData? ==> Structured(a.data)
    requires a.ToggleGroup? ==> a.id in s.groups.at
    requires a.ToggleType? ==> a.id in s.types.at
    requires a.ToggleCharacteristic? ==> a.id in s.charcs.at
    ensures a.Unknown? <==> Reduce(rule, s, a).Err?
    ensures Reduce(rule, s, a).Ok? ==> Wf(Reduce(rule, s, a).value) && Consistent(rule, Reduce(rule, s, a).value)
  {
    match a
    case All => ToggleAllKeeps(rule, s);
    case LoadData(data) => LoadKeeps(rule, data, s);
    case ToggleGroup(id) => ToggleGroupKeeps(rule, s, id);
    case ToggleType(id) => ToggleTypeKeeps(rule, s, id);
    case ToggleCharacteristic(id) => ToggleCharacteristicKeeps(rule, s, id);
    case Unknown(_) =>
  }

  // ---------------------------------------------------------------------
  // What `all` means

  /** For a consistent `ChildStates` level: every parent shows `v` exactly
      when every child does (`parentOf` names a child's parent). */
  lemma LevelAllEq(parents: Dict, children: Dict, parentOf: Entity -> string, v: int)
    requires v == 0 || v == 1
    requires forall p | p in parents.at ::
      && |parents.at[p].members| > 0 && Covers(children, parents.at[p].members)
      && parents.at[p].selected == Aggregate(ChildStates, States(children, parents.at[p].members))
    requires forall c | c in children.at ::
      parentOf(children.at[c]) in parents.at && c in parents.at[parentOf(children.at[c])].members
    ensures (forall p | p in parents.at :: parents.at[p].selected == v)
        <==> (forall c | c in children.at :: children.at[c].selected == v)
  {
    if forall p | p in parents.at :: parents.at[p].selected == v {
      forall c | c in children.at ensures children.at[c].selected == v {
        var p := parentOf(children.at[c]);
        StatesAllEq(children, parents.at[p].members, v);
      }
    }
    if forall c | c in children.at :: children.at[c].selected == v {
      forall p | p in parents.at ensures parents.at[p].selected == v {
        StatesAllEq(children, parents.at[p].members, v);
      }
    }
  }

  /** Under the intended rule `all` is checked exactly when every
      characteristic is, and unchecked exactly when none is. */
  lemma AllMeansEveryCharacteristic(s: Checkboxes)
    requires Wf(s) && Consistent(ChildStates, s) && |s.groups.keys| > 0
    ensures s.all == 1 <==> forall c | c in s.charcs.at :: s.charcs.at[c].selected == 1
    ensures s.all == 0 <==> forall c | c in s.charcs.at :: s.charcs.at[c].selected == 0
  {
    forall g | g in s.groups.at
      ensures |s.groups.at[g].members| > 0 && Covers(s.types, s.groups.at[g].members)
    {
      assert GroupOk(s, g);
    }
    forall t | t in s.types.at
      ensures s.types.at[t].group in s.groups.at && t in s.groups.at[s.types.at[t].group].members
      ensures |s.types.at[t].members| > 0 && Covers(s.charcs, s.types.at[t].members)
    {
      assert TypeOk(s, t);
    }
    forall c | c in s.charcs.at
      ensures s.charcs.at[c].typeId in s.types.at && c in s.types.at[s.charcs.at[c].typeId].members
    {
      assert CharcOk(s, c);
    }
    assert Covers(s.groups, s.groups.keys);
    var gs := States(s.groups, s.groups.keys);
    StatesAllEq(s.groups, s.groups.keys, 1);
    StatesAllEq(s.groups, s.groups.keys, 0);
    LevelAllEq(s.groups, s.types, (e: Entity) => e.group, 1);
    LevelAllEq(s.groups, s.types, (e: Entity) => e.group, 0);
    LevelAllEq(s.types, s.charcs, (e: Entity) => e.typeId, 1);
    LevelAllEq(s.types, s.charcs, (e: Entity) => e.typeId, 0);
  }

  // ---------------------------------------------------------------------
  // The indeterminate state counted as a sum

  /** One station's boxes after loading, everything checked: group G1 holds
      type T1 with characteristics c1 and c2, group G2 holds type T2 with
      characteristic c3. */
  function Example(): Checkboxes {
    Checkboxes(1,
      Obj(["G1", "G2"], map["G1" := Entity("G1", 2, "", "", ["T1"], 1),
                            "G2" := Entity("G2", 1, "", "", ["T2"], 1)]),
      Obj(["T1", "T2"], map["T1" := Entity("T1", 2, "G1", "", ["c1", "c2"], 1),
                            "T2" := Entity("T2", 1, "G2", "", ["c3"], 1)]),
      Obj(["c1", "c2", "c3"], map["c1" := Entity("c1", 1, "G1", "T1", [], 1),
                                  "c2" := Entity("c2", 1, "G1", "T1", [], 1),
                                  "c3" := Entity("c3", 1, "G2", "T2", [], 1)]))
  }

  lemma ExampleKeyed()
    ensures KeyedById(Example().groups) && KeyedById(Example().types) && KeyedById(Example().charcs)
  {
    ExampleGroupsKeyed();
    ExampleTypesKeyed();
    ExampleCharcsKeyed();
  }

  lemma ExampleGroupsKeyed()
    ensures KeyedById(Example().groups)
  {
    assert Example().groups.at.Keys == {"G1", "G2"};
  }

  lemma ExampleTypesKeyed()
    ensures KeyedById(Example().types)
  {
    assert Example().types.at.Keys == {"T1", "T2"};
  }

  lemma ExampleCharcsKeyed()
    ensures KeyedById(Example().charcs)
  {
    assert Example().charcs.at.Keys == {"c1", "c2", "c3"};
  }

  lemma ExampleStructured()
    ensures Structured(Example())
  {
    ExampleKeyed();
    ExampleGroupsOk();
    ExampleTypesOk();
    ExampleCharcsOk();
  }

  lemma ExampleGroupsOk()
    ensures forall g | g in Example().groups.at :: GroupOk(Example(), g)
  {
    var s := Example();
    assert s.groups.at.Keys == {"G1", "G2"};
    assert GroupOk(s, "G1") && GroupOk(s, "G2");
  }

  lemma ExampleTypesOk()
    ensures forall t | t in Example().types.at :: TypeOk(Example(), t)
  {
    var s := Example();
    assert s.types.at.Keys == {"T1", "T2"};
    assert TypeOk(s, "T1") && TypeOk(s, "T2");
  }

  lemma ExampleCharcsOk()
    ensures forall c | c in Example().charcs.at :: CharcOk(Example(), c)
  {
    var s := Example();
    assert s.charcs.at.Keys == {"c1", "c2", "c3"};
    assert CharcOk(s, "c1") && CharcOk(s, "c2") && CharcOk(s, "c3");
  }

  lemma ExampleInRange()
    ensures InRange(Example())
  {
    var s := Example();
    assert s.groups.at.Keys == {"G1", "G2"};
    assert s.types.at.Keys == {"T1", "T2"};
    assert s.charcs.at.Keys == {"c1", "c2", "c3"};
  }

  lemma ExampleConsistent(rule: Rule)
    ensures Consistent(rule, Example())
  {
    ExampleTypesConsistent(rule);
    ExampleGroupsConsistent(rule);
    var s := Example();
    assert States(s.groups, ["G1", "G2"]) == [1, 1];
    assert Sum([1, 1]) == 2;
  }

  lemma ExampleTypesConsistent(rule: Rule)
    ensures TypesConsistent(rule, Example())
  {
    var s := Example();
    assert s.types.at.Keys == {"T1", "T2"};
    assert States(s.charcs, ["c1", "c2"]) == [1, 1];
    assert States(s.charcs, ["c3"]) == [1];
    assert Sum([1, 1]) == 2;
    assert Sum([1]) == 1;
  }

  lemma ExampleGroupsConsistent(rule: Rule)
    ensures GroupsConsistent(rule, Example())
  {
    var s := Example();
    assert s.groups.at.Keys == {"G1", "G2"};
    assert States(s.types, ["T1"]) == [1];
    assert States(s.types, ["T2"]) == [1];
    assert Sum([1]) == 1;
  }

  lemma ExampleWf()
    ensures Wf(Example())
    ensures Consistent(SumOfStates, Example()) && Consistent(ChildStates, Example())
  {
    ExampleStructured();
    ExampleInRange();
    ExampleConsistent(SumOfStates);
    ExampleConsistent(ChildStates);
  }

  /** Unticking c2: type T1 and group G1 become indeterminate under either
      rule, and `all` too. */
  lemma ExampleUntickC2(rule: Rule) returns (s1: Checkboxes)
    ensures Toggle(rule, Example(), CharacteristicLevel, "c2") == Ok(s1)
    ensures s1.charcs == SetSelected(Example().charcs, "c2", 0)
    ensures s1.types.at.Keys == Example().types.at.Keys && s1.groups.at.Keys == Example().groups.at.Keys
    ensures s1.types.at["T2"] == Example().types.at["T2"] && s1.groups.at["G2"] == Example().groups.at["G2"]
    ensures s1.types.at["T1"].selected == 2 && s1.groups.at["G1"].selected == 2
    ensures s1.groups.keys == ["G1", "G2"] && s1.all == 2
  {
    var s0 := Example();
    var charcs := SetSelected(s0.charcs, "c2", 0);
    var types := UntickC2Types(rule);
    var groups := UntickC2Groups(rule, types);
    assert Covers(charcs, s0.types.at["T1"].members);
    s1 := Checkboxes(AllOf(rule, groups), groups, types, charcs);
  }

  /** The type T1 after unticking c2 is indeterminate. */
  lemma UntickC2Types(rule: Rule) returns (types: Dict)
    ensures types == UpdateParentSpec(rule, Example().types, SetSelected(Example().charcs, "c2", 0), "T1")
    ensures types.keys == ["T1", "T2"] && types.at.Keys == {"T1", "T2"}
    ensures types.at["T1"].selected == 2 && types.at["T2"] == Example().types.at["T2"]
  {
    var charcs := SetSelected(Example().charcs, "c2", 0);
    assert States(charcs, ["c1", "c2"]) == [1, 0];
    assert Sum([1, 0]) == 1 && !AllEq([1, 0], 0) && !AllEq([1, 0], 1);
    types := UpdateParentSpec(rule, Example().types, charcs, "T1");
  }

  /** The group G1 above an indeterminate T1 is indeterminate, and so is
      `all`. */
  lemma UntickC2Groups(rule: Rule, types: Dict) returns (groups: Dict)
    requires types.at.Keys == {"T1", "T2"} && types.at["T1"].selected == 2
    ensures groups == UpdateParentSpec(rule, Example().groups, types, "G1")
    ensures groups.keys == ["G1", "G2"] && groups.at.Keys == {"G1", "G2"}
    ensures groups.at["G1"].selected == 2 && groups.at["G2"] == Example().groups.at["G2"]
    ensures AllOf(rule, groups) == 2
  {
    assert States(types, ["T1"]) == [2];
    assert Sum([2]) == 2 && !AllEq([2], 0) && !AllEq([2], 1);
    groups := UpdateParentSpec(rule, Example().groups, types, "G1");
    assert States(groups, ["G1", "G2"]) == [2, 1];
    assert Sum([2, 1]) == 3 && !AllEq([2, 1], 0) && !AllEq([2, 1], 1);
  }

  /** Unticking c3 next: type T2 and group G2 become unchecked. */
  lemma ExampleUntickC3(rule: Rule, s1: Checkboxes) returns (s2: Checkboxes)
    requires s1.charcs == SetSelected(Example().charcs, "c2", 0)
    requires s1.types.at.Keys == Example().types.at.Keys && s1.groups.at.Keys == Example().groups.at.Keys
    requires s1.types.at["T2"] == Example().types.at["T2"] && s1.groups.at["G2"] == Example().groups.at["G2"]
    requires s1.groups.at["G1"].selected == 2 && s1.groups.keys == ["G1", "G2"]
    ensures Toggle(rule, s1, CharacteristicLevel, "c3") == Ok(s2)
    ensures "c2" in s2.charcs.at && "c3" in s2.charcs.at
    ensures s2.charcs.at["c2"].selected == 0 && s2.charcs.at["c3"].selected == 0
    ensures States(s2.groups, s2.groups.keys) == [2, 0]
  {
    var charcs := SetSelected(s1.charcs, "c3", 0);
    assert States(charcs, ["c3"]) == [0];
    assert Sum([0]) == 0 && AllEq([0], 0);
    var types := UpdateParentSpec(rule, s1.types, charcs, "T2");
    assert States(types, ["T2"]) == [0];
    var groups := UpdateParentSpec(rule, s1.groups, types, "G2");
    assert States(groups, ["G1", "G2"]) == [2, 0];
    s2 := Checkboxes(AllOf(rule, groups), groups, types, charcs);
  }

  /** As written: unticking c2 and then c3 leaves both unchecked, yet the
      `all` box ends up checked, because group G1 is indeterminate (2) and
      G2 unchecked (0), which add up to the number of groups. */
  lemma AsWrittenAllCheckedAfterUnticking()
    ensures Toggle(SumOfStates, Example(), CharacteristicLevel, "c2").Ok?
    ensures var s1 := Toggle(SumOfStates, Example(), CharacteristicLevel, "c2").value;
      && Toggle(SumOfStates, s1, CharacteristicLevel, "c3").Ok?
      && var s2 := Toggle(SumOfStates, s1, CharacteristicLevel, "c3").value;
      && s2.all == 1
      && s2.charcs.at["c2"].selected == 0 && s2.charcs.at["c3"].selected == 0
  {
    var s1 := ExampleUntickC2(SumOfStates);
    var s2 := ExampleUntickC3(SumOfStates, s1);
    RulesDisagree();
  }

  /** With the intended rule the same two clicks leave `all` indeterminate. */
  lemma IntendedAllIndeterminateAfterUnticking()
    ensures Toggle(ChildStates, Example(), CharacteristicLevel, "c2").Ok?
    ensures var s1 := Toggle(ChildStates, Example(), CharacteristicLevel, "c2").value;
      && Toggle(ChildStates, s1, CharacteristicLevel, "c3").Ok?
      && var s2 := Toggle(ChildStates, s1, CharacteristicLevel, "c3").value;
      && s2.all == 2
  {
    var s1 := ExampleUntickC2(ChildStates);
    var s2 := ExampleUntickC3(ChildStates, s1);
    RulesDisagree();
  }
}
