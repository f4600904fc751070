/** How the monitoring-station page files characteristics into types and
    groups: the lookups `getCharcType` and `getCharcGroup`, the grouping of
    the station's type counts (`groupTypes`, `parseGroupCounts`), and the
    checkbox structure built from the sampled characteristics
    (`parseCharcs`). */
module StationParsing {
  import opened Wrappers
  import opened JsObjects
  import opened StationCheckboxes
  import opened StationFilters

  // ---------------------------------------------------------------------
  // Lookups

  /** An entry of the characteristic-group mappings: a group label and the
      type names filed under it. */
  datatype GroupMapping = GroupMapping(name: string, groupNames: seq<string>)

  /** `getCharcGroup`: the label of the first mapping that lists the type,
      `'Other'` when none does. */
  function GetCharcGroup(charcType: string, groupMappings: seq<GroupMapping>): (r: string)
    ensures (forall i | 0 <= i < |groupMappings| :: charcType !in groupMappings[i].groupNames) ==> r == "Other"
    ensures forall i | 0 <= i < |groupMappings| && charcType in groupMappings[i].groupNames ::
      (forall j | 0 <= j < i :: charcType !in groupMappings[j].groupNames) ==> r == groupMappings[i].name
    decreases |groupMappings|
  {
    if |groupMappings| == 0 then "Other"
    else if charcType in groupMappings[0].groupNames then groupMappings[0].name
    else
      var r := GetCharcGroup(charcType, groupMappings[1..]);
      assert forall i | 1 <= i < |groupMappings| :: groupMappings[1..][i - 1] == groupMappings[i];
      r
  }

  /** The first of `keys` whose list names the characteristic. */
  function TypeAmong(charcName: string, at: map<string, seq<string>>, keys: seq<string>): (r: Option<string>)
    requires forall k | k in keys :: k in at
    ensures r.None? <==> forall i | 0 <= i < |keys| :: charcName !in at[keys[i]]
    ensures r.Some? ==> exists i | 0 <= i < |keys| ::
      (keys[i] == r.value && charcName in at[keys[i]] && forall j | 0 <= j < i :: charcName !in at[keys[j]])
    decreases |keys|
  {
    if |keys| == 0 then None
    else if charcName in at[keys[0]] then Some(keys[0])
    else
      var r := TypeAmong(charcName, at, keys[1..]);
      assert forall i | 1 <= i < |keys| :: keys[1..][i - 1] == keys[i];
      if r.Some? then
        var i :| 0 <= i < |keys[1..]| && keys[1..][i] == r.value && charcName in at[keys[1..][i]] &&
          forall j | 0 <= j < i :: charcName !in at[keys[1..][j]];
        assert keys[i + 1] == r.value && forall j | 0 <= j < i + 1 :: charcName !in at[keys[j]];
        r
      else r
  }

  /** `getCharcType`: the first type, in key order, whose list names the
      characteristic; `'Not Assigned'` when none does. */
  function GetCharcType(charcName: string, typeMappings: Obj<seq<string>>): (r: string)
    requires typeMappings.Valid()
    ensures (forall i | 0 <= i < |typeMappings.keys| :: charcName !in typeMappings.at[typeMappings.keys[i]])
      ==> r == "Not Assigned"
    ensures forall i | 0 <= i < |typeMappings.keys| && charcName in typeMappings.at[typeMappings.keys[i]] ::
      (forall j | 0 <= j < i :: charcName !in typeMappings.at[typeMappings.keys[j]]) ==> r == typeMappings.keys[i]
  {
    var r := TypeAmong(charcName, typeMappings.at, typeMappings.keys);
    if r.Some? then
      var i :| 0 <= i < |typeMappings.keys| && typeMappings.keys[i] == r.value &&
        charcName in typeMappings.at[typeMappings.keys[i]] &&
        forall j | 0 <= j < i :: charcName !in typeMappings.at[typeMappings.keys[j]];
      OnlyFirst(charcName, typeMappings.at, typeMappings.keys, i);
      r.value
    else "Not Assigned"
  }

  /** At most one key is the first whose list names the characteristic. */
  lemma OnlyFirst(charcName: string, at: map<string, seq<string>>, keys: seq<string>, i: nat)
    requires forall k | k in keys :: k in at
    requires i < |keys| && charcName in at[keys[i]] && forall j | 0 <= j < i :: charcName !in at[keys[j]]
    ensures forall i' | 0 <= i' < |keys| && charcName in at[keys[i']] && (forall j | 0 <= j < i' :: charcName !in at[keys[j]]) ::
      i' == i
  {
  }

  /** `isEmpty`: whether the object has no own key. */
  function IsEmpty<V>(obj: Obj<V>): (r: bool)
    requires obj.Valid()
    ensures r <==> obj.at == map[]
  {
    assert |obj.keys| > 0 ==> obj.keys[0] in obj.at;
    |obj.keys| == 0
  }

  // ---------------------------------------------------------------------
  // `groupTypes`

  /** The mappings other than the `'All'` entry. */
  function Active(mappings: seq<GroupMapping>): (r: seq<GroupMapping>)
    ensures forall m | m in r :: m in mappings && m.name != "All"
    ensures forall m | m in mappings && m.name != "All" :: m in r
    decreases |mappings|
  {
    if |mappings| == 0 then []
    else if mappings[|mappings| - 1].name == "All" then Active(mappings[..|mappings| - 1])
    else Active(mappings[..|mappings| - 1]) + [mappings[|mappings| - 1]]
  }

  /** Some mapping named `g` lists the type. */
  predicate Lists(mappings: seq<GroupMapping>, g: string, t: string) {
    exists m | m in mappings :: m.name == g && t in m.groupNames
  }

  /** Some mapping other than `'All'` lists the type. */
  predicate Filed(mappings: seq<GroupMapping>, t: string) {
    exists m | m in mappings :: m.name != "All" && t in m.groupNames
  }

  lemma ListsActive(mappings: seq<GroupMapping>, g: string, t: string)
    ensures Lists(Active(mappings), g, t) <==> g != "All" && Lists(mappings, g, t)
    ensures Filed(mappings, t) <==> exists m | m in Active(mappings) :: t in m.groupNames
  {
    if g != "All" && Lists(mappings, g, t) {
      var m :| m in mappings && m.name == g && t in m.groupNames;
      assert m in Active(mappings);
    }
    if Filed(mappings, t) {
      var m :| m in mappings && m.name != "All" && t in m.groupNames;
      assert m in Active(mappings);
    }
  }

  /** `groups[g].push(t)`, creating the list first when it is missing. */
  function Push(groups: Obj<seq<string>>, g: string, t: string): (r: Obj<seq<string>>)
    requires groups.Valid()
    ensures r.Valid()
    ensures r.at.Keys == groups.at.Keys + {g}
    ensures r.at[g] == (if g in groups.at then groups.at[g] else []) + [t]
    ensures forall l | l in groups.at && l != g :: r.at[l] == groups.at[l]
  {
    PutValid(groups, g, (if g in groups.at then groups.at[g] else []) + [t]);
    groups.Put(g, (if g in groups.at then groups.at[g] else []) + [t])
  }

  /** What `groupTypes` promises of its result for the type names `types`:
      only those names are listed; a name is under a label other than
      `'Other'` exactly when a mapping of that label lists it; it is under
      `'Other'` exactly when an `'Other'` mapping lists it or no mapping
      (other than `'All'`) does. */
  ghost predicate GroupedAsMapped(groups: Obj<seq<string>>, types: seq<string>, mappings: seq<GroupMapping>) {
    && groups.Valid()
    && (forall l, t | l in groups.at && t in groups.at[l] :: t in types)
    && (forall l, t | t in types && l != "Other" && l != "All" ::
          (l in groups.at && t in groups.at[l]) <==> Lists(mappings, l, t))
    && "All" !in groups.at
    && (forall t | t in types ::
          ("Other" in groups.at && t in groups.at["Other"]) <==> Lists(mappings, "Other", t) || !Filed(mappings, t))
  }

  /** The state of the first loop of `groupTypes` after the names `seen`
      were looked up in mapping `m`. */
  ghost predicate MappedUpTo(groups: Obj<seq<string>>, m: GroupMapping, types: seq<string>,
                             done: seq<GroupMapping>, seen: seq<string>) {
    && groups.Valid() && "All" !in groups.at
    && (forall l, t | l in groups.at && t in groups.at[l] :: t in types)
    && (forall l, t | t in types :: (l in groups.at && t in groups.at[l]) <==>
          Lists(done, l, t) || (l == m.name && t in m.groupNames && t in seen))
  }

  /** One more name looked up in `m`, and pushed under its label when `m`
      lists it. */
  lemma MappedStep(before: Obj<seq<string>>, after: Obj<seq<string>>, m: GroupMapping,
                   types: seq<string>, done: seq<GroupMapping>, j: nat)
    requires j < |types| && m.name != "All" && MappedUpTo(before, m, types, done, types[..j])
    requires after == if types[j] in m.groupNames then Push(before, m.name, types[j]) else before
    ensures MappedUpTo(after, m, types, done, types[..j + 1])
  {
    assert forall t :: t in types[..j + 1] <==> t in types[..j] || t == types[j];
  }

  /** A label lists a name in `done + [m]` exactly when it does in `done`
      or is `m`'s label with the name among `m`'s. */
  lemma ListsSnoc(done: seq<GroupMapping>, m: GroupMapping, l: string, t: string)
    ensures Lists(done + [m], l, t) <==> Lists(done, l, t) || (l == m.name && t in m.groupNames)
  {
    if Lists(done + [m], l, t) {
      var m' :| m' in done + [m] && m'.name == l && t in m'.groupNames;
      assert m' in done || m' == m;
    }
    if Lists(done, l, t) {
      var m' :| m' in done && m'.name == l && t in m'.groupNames;
      assert m' in done + [m];
    }
  }

  /** The first loop of `groupTypes`, for one mapping: every type it lists
      is pushed under its label. */
  method FileMapping(groups0: Obj<seq<string>>, m: GroupMapping, types: seq<string>,
                     ghost done: seq<GroupMapping>)
    returns (groups: Obj<seq<string>>)
    requires groups0.Valid() && "All" !in groups0.at && m.name != "All"
    requires forall l, t | l in groups0.at && t in groups0.at[l] :: t in types
    requires forall l, t | t in types :: (l in groups0.at && t in groups0.at[l]) <==> Lists(done, l, t)
    ensures groups.Valid() && "All" !in groups.at
    ensures forall l, t | l in groups.at && t in groups.at[l] :: t in types
    ensures forall l, t | t in types :: (l in groups.at && t in groups.at[l]) <==> Lists(done + [m], l, t)
  {
    groups := groups0;
    var j := 0;
    while j < |types|
      invariant 0 <= j <= |types|
      invariant MappedUpTo(groups, m, types, done, types[..j])
    {
      var before := groups;
      if types[j] in m.groupNames {
        groups := Push(groups, m.name, types[j]);
      }
      MappedStep(before, groups, m, types, done, j);
      j := j + 1;
    }
    assert types[..j] == types;
    forall l, t | t in types
      ensures (l in groups.at && t in groups.at[l]) <==> Lists(done + [m], l, t)
    {
      ListsSnoc(done, m, l, t);
    }
  }

  /** `Object.values(groups).reduce(...)`: every listed name, label after
      label. */
  function Flatten(groups: Obj<seq<string>>, keys: seq<string>): (r: seq<string>)
    requires forall k | k in keys :: k in groups.at
    ensures forall t :: t in r <==> exists k | k in keys :: t in groups.at[k]
    decreases |keys|
  {
    if |keys| == 0 then []
    else
      var r := Flatten(groups, keys[..|keys| - 1]) + groups.at[keys[|keys| - 1]];
      assert forall k :: k in keys <==> k in keys[..|keys| - 1] || k == keys[|keys| - 1];
      r
  }

  /** `groupTypes`: the type names (the keys of `charcTypes`) filed under
      the labels of the mappings that list them, and the names no mapping
      lists under `'Other'`. */
  method GroupTypes<V>(charcTypes: Obj<V>, mappings: seq<GroupMapping>) returns (groups: Obj<seq<string>>)
    ensures GroupedAsMapped(groups, charcTypes.keys, mappings)
  {
    var types := charcTypes.keys;
    var active := Active(mappings);
    groups := Empty();
    var i := 0;
    while i < |active|
      invariant 0 <= i <= |active|
      invariant groups.Valid() && "All" !in groups.at
      invariant forall l, t | l in groups.at && t in groups.at[l] :: t in types
      invariant forall l, t | t in types :: (l in groups.at && t in groups.at[l]) <==> Lists(active[..i], l, t)
    {
      assert active[..i + 1] == active[..i] + [active[i]];
      assert active[i] in active;
      groups := FileMapping(groups, active[i], types, active[..i]);
      i := i + 1;
    }
    assert active[..i] == active;
    // add any leftover names to the 'Other' category
    var typesGrouped := Flatten(groups, groups.keys);
    ghost var filed := groups;
    groups := FileLeftovers(groups, types, typesGrouped);
    GroupedMeaning(filed, groups, types, mappings, active, typesGrouped);
  }

  lemma GroupedMeaning(filed: Obj<seq<string>>, groups: Obj<seq<string>>, types: seq<string>,
                       mappings: seq<GroupMapping>, active: seq<GroupMapping>, typesGrouped: seq<string>)
    requires active == Active(mappings)
    requires filed.Valid() && typesGrouped == Flatten(filed, filed.keys)
    requires forall l, t | t in types :: (l in filed.at && t in filed.at[l]) <==> Lists(active, l, t)
    requires groups.Valid() && "All" !in groups.at
    requires forall l | l != "Other" :: l in groups.at <==> l in filed.at
    requires forall l | l in groups.at && l != "Other" :: l in filed.at && groups.at[l] == filed.at[l]
    requires forall l, t | l in groups.at && t in groups.at[l] :: t in types
    requires forall t | t in types :: ("Other" in groups.at && t in groups.at["Other"]) <==>
      ("Other" in filed.at && t in filed.at["Other"]) || t !in typesGrouped
    ensures GroupedAsMapped(groups, types, mappings)
  {
    TypesGroupedMeaning(filed, types, mappings, active, typesGrouped);
    forall l, t | t in types && l != "Other" && l != "All"
      ensures (l in groups.at && t in groups.at[l]) <==> Lists(mappings, l, t)
    {
      ListsActive(mappings, l, t);
    }
    forall t | t in types
      ensures ("Other" in groups.at && t in groups.at["Other"]) <==> Lists(mappings, "Other", t) || !Filed(mappings, t)
    {
      ListsActive(mappings, "Other", t);
    }
  }

  /** The names listed after the first loop are those a mapping files. */
  lemma TypesGroupedMeaning(filed: Obj<seq<string>>, types: seq<string>,
                            mappings: seq<GroupMapping>, active: seq<GroupMapping>, typesGrouped: seq<string>)
    requires active == Active(mappings)
    requires filed.Valid() && typesGrouped == Flatten(filed, filed.keys)
    requires forall l, t | t in types :: (l in filed.at && t in filed.at[l]) <==> Lists(active, l, t)
    ensures forall t | t in types :: t in typesGrouped <==> Filed(mappings, t)
  {
    forall t | t in types
      ensures t in typesGrouped <==> Filed(mappings, t)
    {
      ListsActive(mappings, "", t);
      if t in typesGrouped {
        var k :| k in filed.keys && t in filed.at[k];
        var m :| m in active && m.name == k && t in m.groupNames;
      } else if Filed(mappings, t) {
        var m :| m in active && t in m.groupNames;
        assert Lists(active, m.name, t);
      }
    }
  }

  /** The second loop of `groupTypes`: each name not yet listed is pushed
      under `'Other'`. */
  method FileLeftovers(filed: Obj<seq<string>>, types: seq<string>, typesGrouped: seq<string>)
    returns (groups: Obj<seq<string>>)
    requires filed.Valid() && "All" !in filed.at
    requires forall l, t | l in filed.at && t in filed.at[l] :: t in types
    ensures groups.Valid() && "All" !in groups.at
    ensures forall l | l != "Other" :: l in groups.at <==> l in filed.at
    ensures forall l | l in groups.at && l != "Other" :: l in filed.at && groups.at[l] == filed.at[l]
    ensures forall l, t | l in groups.at && t in groups.at[l] :: t in types
    ensures forall t | t in types :: ("Other" in groups.at && t in groups.at["Other"]) <==>
      ("Other" in filed.at && t in filed.at["Other"]) || t !in typesGrouped
  {
    groups := filed;
    var j := 0;
    while j < |types|
      invariant 0 <= j <= |types|
      invariant LeftoversFiled(groups, filed, types, typesGrouped, types[..j])
    {
      ghost var before := groups;
      if types[j] !in typesGrouped {
        groups := Push(groups, "Other", types[j]);
      }
      LeftoverStep(before, groups, filed, types, typesGrouped, j);
      j := j + 1;
    }
    assert types[..j] == types;
  }

  /** Part way through the second loop of `groupTypes`, after the names
      `done`. */
  ghost predicate LeftoversFiled(groups: Obj<seq<string>>, filed: Obj<seq<string>>, types: seq<string>,
                                 typesGrouped: seq<string>, done: seq<string>) {
    && groups.Valid() && "All" !in groups.at
    && (forall l | l != "Other" :: l in groups.at <==> l in filed.at)
    && (forall l | l in groups.at && l != "Other" :: l in filed.at && groups.at[l] == filed.at[l])
    && (forall l, t | l in groups.at && t in groups.at[l] :: t in types)
    && (forall t | t in types :: ("Other" in groups.at && t in groups.at["Other"]) <==>
         ("Other" in filed.at && t in filed.at["Other"]) || (t in done && t !in typesGrouped))
  }

  /** One more name, pushed under `'Other'` when it is not yet listed. */
  lemma LeftoverStep(before: Obj<seq<string>>, after: Obj<seq<string>>, filed: Obj<seq<string>>,
                     types: seq<string>, typesGrouped: seq<string>, j: nat)
    requires j < |types| && LeftoversFiled(before, filed, types, typesGrouped, types[..j])
    requires after == if types[j] !in typesGrouped then Push(before, "Other", types[j]) else before
    ensures LeftoversFiled(after, filed, types, typesGrouped, types[..j + 1])
  {
    assert types[..j + 1] == types[..j] + [types[j]];
    if types[j] in typesGrouped {
      LeftoverListed(before, filed, types, typesGrouped, types[..j], types[j]);
    } else {
      LeftoverPushed(before, filed, types, typesGrouped, types[..j], types[j]);
    }
  }

  lemma LeftoverListed(groups: Obj<seq<string>>, filed: Obj<seq<string>>, types: seq<string>,
                       typesGrouped: seq<string>, done: seq<string>, x: string)
    requires x in typesGrouped && LeftoversFiled(groups, filed, types, typesGrouped, done)
    ensures LeftoversFiled(groups, filed, types, typesGrouped, done + [x])
  {
    forall t | t in types ensures (t in done + [x] && t !in typesGrouped) <==> (t in done && t !in typesGrouped) {
    }
  }

  lemma LeftoverPushed(before: Obj<seq<string>>, filed: Obj<seq<string>>, types: seq<string>,
                       typesGrouped: seq<string>, done: seq<string>, x: string)
    requires x in types && x !in typesGrouped && LeftoversFiled(before, filed, types, typesGrouped, done)
    ensures LeftoversFiled(Push(before, "Other", x), filed, types, typesGrouped, done + [x])
  {
    var after := Push(before, "Other", x);
    forall t | t in types ensures ("Other" in after.at && t in after.at["Other"]) <==>
      ("Other" in filed.at && t in filed.at["Other"]) || (t in done + [x] && t !in typesGrouped)
    {
    }
    forall l, t | l in after.at && t in after.at[l] ensures t in types {
      if l != "Other" {
        assert after.at[l] == before.at[l];
      }
    }
  }

  /** `groupTypes` loses no type: each is listed under some label. */
  lemma EveryTypeGrouped(groups: Obj<seq<string>>, types: seq<string>, mappings: seq<GroupMapping>, t: string)
    requires GroupedAsMapped(groups, types, mappings) && t in types
    ensures exists l | l in groups.at :: t in groups.at[l]
  {
    if Filed(mappings, t) {
      var m :| m in mappings && m.name != "All" && t in m.groupNames;
      assert Lists(mappings, m.name, t);
      if m.name != "Other" {
        assert m.name in groups.at && t in groups.at[m.name];
      } else {
        assert "Other" in groups.at && t in groups.at["Other"];
      }
    } else {
      assert "Other" in groups.at && t in groups.at["Other"];
    }
  }

  /** The group a characteristic is shown under (`getCharcGroup` of its
      type) lists that type in the station's grouping, as long as the
      mappings have no `'All'` entry ahead of the one that lists it. */
  lemma CharcGroupListsType(groups: Obj<seq<string>>, types: seq<string>, mappings: seq<GroupMapping>, t: string)
    requires GroupedAsMapped(groups, types, mappings) && t in types
    requires forall i | 0 <= i < |mappings| && t in mappings[i].groupNames :: mappings[i].name != "All"
    ensures GetCharcGroup(t, mappings) in groups.at && t in groups.at[GetCharcGroup(t, mappings)]
  {
    var g := GetCharcGroup(t, mappings);
    if exists i | 0 <= i < |mappings| :: t in mappings[i].groupNames {
      var i := FirstListing(t, mappings);
      assert mappings[i] in mappings;
      assert Lists(mappings, g, t);
      if g == "Other" {
        assert "Other" in groups.at && t in groups.at["Other"];
      }
    } else {
      assert !Filed(mappings, t) by {
        forall m | m in mappings && m.name != "All" ensures t !in m.groupNames {
          var i :| 0 <= i < |mappings| && mappings[i] == m;
        }
      }
    }
  }

  lemma FirstListing(t: string, mappings: seq<GroupMapping>) returns (i: nat)
    requires exists i | 0 <= i < |mappings| :: t in mappings[i].groupNames
    ensures i < |mappings| && t in mappings[i].groupNames
    ensures forall j | 0 <= j < i :: t !in mappings[j].groupNames
  {
    var k :| 0 <= k < |mappings| && t in mappings[k].groupNames;
    i := 0;
    while t !in mappings[i].groupNames
      invariant i <= k
      invariant forall j | 0 <= j < i :: t !in mappings[j].groupNames
      decreases k - i
    {
      i := i + 1;
    }
  }

  // ---------------------------------------------------------------------
  // `parseGroupCounts`

  /** A JavaScript number as far as the counts go: adding `undefined` (a
      missing key) gives `NaN`, and `NaN` absorbs every later addition. */
  datatype JsNum = Num(n: int) | NaN {
    function Plus(other: JsNum): JsNum {
      if Num? && other.Num? then Num(n + other.n) else NaN
    }
  }

  /** `obj[k]` read as a number. */
  function Read(counts: Obj<int>, k: string): JsNum {
    if k in counts.at then Num(counts.at[k]) else NaN
  }

  /** A group's count before its types are added: 0 for a label of the
      mappings, `undefined` otherwise. */
  function Start(mappings: seq<GroupMapping>, g: string): JsNum {
    if g != "All" && exists m | m in mappings :: m.name == g then Num(0) else NaN
  }

  /** `start` with the count of each type added in turn. */
  function GroupTotal(start: JsNum, typeCounts: Obj<int>, types: seq<string>): JsNum
    decreases |types|
  {
    if |types| == 0 then start
    else GroupTotal(start, typeCounts, types[..|types| - 1]).Plus(Read(typeCounts, types[|types| - 1]))
  }

  function CountsOf(typeCounts: Obj<int>, types: seq<string>): int
    requires forall t | t in types :: t in typeCounts.at
    decreases |types|
  {
    if |types| == 0 then 0 else CountsOf(typeCounts, types[..|types| - 1]) + typeCounts.at[types[|types| - 1]]
  }

  /** A group whose types all have counts totals their counts; a type
      without a count, or a group that is not a label of the mappings,
      makes the total `NaN`. */
  lemma {:induction false} GroupTotalMeaning(start: JsNum, typeCounts: Obj<int>, types: seq<string>)
    ensures (start.Num? && forall t | t in types :: t in typeCounts.at) ==>
      GroupTotal(start, typeCounts, types) == Num(start.n + CountsOf(typeCounts, types))
    ensures (start.NaN? || exists t | t in types :: t !in typeCounts.at) ==> GroupTotal(start, typeCounts, types) == NaN
    decreases |types|
  {
    if |types| > 0 {
      var init := types[..|types| - 1];
      assert forall t | t in init :: t in types;
      assert forall t | t in types :: t in init || t == types[|types| - 1];
      GroupTotalMeaning(start, typeCounts, init);
    }
  }

  /** The labels of the mappings other than `'All'`, as keys. */
  ghost function Labels(mappings: seq<GroupMapping>): set<string> {
    set m | m in mappings && m.name != "All" :: m.name
  }

  /** The first loop of `parseGroupCounts`: 0 under every group label of
      the mappings except `All`. */
  method ZeroLabels(mappings: seq<GroupMapping>) returns (groupCounts: Obj<JsNum>)
    ensures groupCounts.Valid()
    ensures groupCounts.at.Keys == Labels(mappings)
    ensures forall g | g in groupCounts.at :: groupCounts.at[g] == Num(0)
  {
    groupCounts := Empty();
    var i := 0;
    while i < |mappings|
      invariant 0 <= i <= |mappings|
      invariant groupCounts.Valid()
      invariant groupCounts.at.Keys == Labels(mappings[..i])
      invariant forall g | g in groupCounts.at :: groupCounts.at[g] == Num(0)
    {
      assert mappings[..i + 1] == mappings[..i] + [mappings[i]];
      if mappings[i].name != "All" {
        PutValid(groupCounts, mappings[i].name, Num(0));
        groupCounts := groupCounts.Put(mappings[i].name, Num(0));
      }
      i := i + 1;
    }
    assert mappings[..i] == mappings;
  }

  /** A group starts from 0 exactly when it is a label of the mappings. */
  lemma LabelsStart(mappings: seq<GroupMapping>)
    ensures forall g :: g in Labels(mappings) <==> Start(mappings, g) == Num(0)
  {
    forall g ensures g in Labels(mappings) <==> Start(mappings, g) == Num(0) {
      if Start(mappings, g) == Num(0) {
        var m :| m in mappings && m.name == g;
      }
    }
  }

  /** `parseGroupCounts`: 0 for every label of the mappings, then each
      group's type counts added to its entry. */
  method ParseGroupCounts(typeCounts: Obj<int>, charcGroups: Obj<seq<string>>, mappings: seq<GroupMapping>)
    returns (groupCounts: Obj<JsNum>)
    requires charcGroups.Valid()
    ensures groupCounts.Valid()
    ensures forall g :: g in groupCounts.at <==>
      g in Labels(mappings) || (g in charcGroups.at && |charcGroups.at[g]| > 0)
    ensures forall g | g in groupCounts.at ::
      groupCounts.at[g] == if g in charcGroups.at then GroupTotal(Start(mappings, g), typeCounts, charcGroups.at[g]) else Num(0)
  {
    groupCounts := ZeroLabels(mappings);
    LabelsStart(mappings);
    var keys := charcGroups.keys;
    var k := 0;
    while k < |keys|
      invariant 0 <= k <= |keys|
      invariant CountedUpTo(groupCounts, typeCounts, charcGroups, mappings, keys[..k])
    {
      var g := keys[k];
      ghost var before := groupCounts;
      StartOfUncounted(groupCounts, typeCounts, charcGroups, mappings, keys, k);
      groupCounts := AddTypeCounts(groupCounts, typeCounts, g, charcGroups.at[g], Start(mappings, g));
      CountedStep(before, groupCounts, typeCounts, charcGroups, mappings, keys, k);
      k := k + 1;
    }
    assert keys[..k] == keys;
  }

  /** Part way through the outer loop of `parseGroupCounts`, after the
      groups `done`. */
  ghost predicate CountedUpTo(groupCounts: Obj<JsNum>, typeCounts: Obj<int>, charcGroups: Obj<seq<string>>,
                              mappings: seq<GroupMapping>, done: seq<string>) {
    && groupCounts.Valid()
    && (forall g :: g in groupCounts.at <==>
         g in Labels(mappings) || (g in done && g in charcGroups.at && |charcGroups.at[g]| > 0))
    && (forall g | g in groupCounts.at ::
         groupCounts.at[g] == if g in done && g in charcGroups.at
           then GroupTotal(Start(mappings, g), typeCounts, charcGroups.at[g]) else Num(0))
  }

  /** A group not yet counted holds its starting value, if any. */
  lemma StartOfUncounted(groupCounts: Obj<JsNum>, typeCounts: Obj<int>, charcGroups: Obj<seq<string>>,
                         mappings: seq<GroupMapping>, keys: seq<string>, k: nat)
    requires charcGroups.Valid() && keys == charcGroups.keys && k < |keys|
    requires CountedUpTo(groupCounts, typeCounts, charcGroups, mappings, keys[..k])
    requires forall g :: g in Labels(mappings) <==> Start(mappings, g) == Num(0)
    ensures Start(mappings, keys[k]) == if keys[k] in groupCounts.at then groupCounts.at[keys[k]] else NaN
  {
    assert keys[k] !in keys[..k];
  }

  /** Counting one more group keeps the loop's invariant. */
  lemma CountedStep(before: Obj<JsNum>, after: Obj<JsNum>, typeCounts: Obj<int>, charcGroups: Obj<seq<string>>,
                    mappings: seq<GroupMapping>, keys: seq<string>, k: nat)
    requires k < |keys| && keys[k] in charcGroups.at
    requires CountedUpTo(before, typeCounts, charcGroups, mappings, keys[..k])
    requires after.Valid()
    requires after.at.Keys == before.at.Keys + (if |charcGroups.at[keys[k]]| > 0 then {keys[k]} else {})
    requires keys[k] in after.at ==>
      after.at[keys[k]] == GroupTotal(Start(mappings, keys[k]), typeCounts, charcGroups.at[keys[k]])
    requires forall x | x in before.at && x != keys[k] :: after.at[x] == before.at[x]
    ensures CountedUpTo(after, typeCounts, charcGroups, mappings, keys[..k + 1])
  {
    var g, done := keys[k], keys[..k];
    assert keys[..k + 1] == done + [g];
    CountedStepKeys(before.at.Keys, after.at.Keys, charcGroups.at, Labels(mappings), done, g);
    CountedStepValues(before.at, after.at, typeCounts, charcGroups.at, mappings, done, g);
  }

  lemma CountedStepKeys(before: set<string>, after: set<string>, groups: map<string, seq<string>>,
                        labels: set<string>, done: seq<string>, g: string)
    requires g in groups
    requires forall x :: x in before <==> x in labels || (x in done && x in groups && |groups[x]| > 0)
    requires after == before + (if |groups[g]| > 0 then {g} else {})
    ensures forall x :: x in after <==> x in labels || (x in done + [g] && x in groups && |groups[x]| > 0)
  {
  }

  lemma CountedStepValues(before: map<string, JsNum>, after: map<string, JsNum>, typeCounts: Obj<int>,
                          groups: map<string, seq<string>>, mappings: seq<GroupMapping>, done: seq<string>, g: string)
    requires g in groups && after.Keys == before.Keys + (if |groups[g]| > 0 then {g} else {})
    requires forall x | x in before ::
      before[x] == if x in done && x in groups then GroupTotal(Start(mappings, x), typeCounts, groups[x]) else Num(0)
    requires g in after ==> after[g] == GroupTotal(Start(mappings, g), typeCounts, groups[g])
    requires forall x | x in before && x != g :: after[x] == before[x]
    ensures forall x | x in after ::
      after[x] == if x in done + [g] && x in groups then GroupTotal(Start(mappings, x), typeCounts, groups[x]) else Num(0)
  {
  }

  /** The inner `forEach` of `parseGroupCounts`: each type's count added to
      the group's entry. */
  method AddTypeCounts(groupCounts0: Obj<JsNum>, typeCounts: Obj<int>, g: string, types: seq<string>, ghost start: JsNum)
    returns (groupCounts: Obj<JsNum>)
    requires groupCounts0.Valid()
    requires start == if g in groupCounts0.at then groupCounts0.at[g] else NaN
    ensures groupCounts.Valid()
    ensures groupCounts.at.Keys == groupCounts0.at.Keys + (if |types| > 0 then {g} else {})
    ensures g in groupCounts.at ==> groupCounts.at[g] == GroupTotal(start, typeCounts, types)
    ensures forall x | x in groupCounts0.at && x != g :: groupCounts.at[x] == groupCounts0.at[x]
  {
    groupCounts := groupCounts0;
    var j := 0;
    while j < |types|
      invariant j <= |types| && AddedUpTo(groupCounts, groupCounts0, typeCounts, g, types[..j], start)
    {
      assert types[..j + 1][..j] == types[..j];
      var current := if g in groupCounts.at then groupCounts.at[g] else NaN;
      AddTypeStep(groupCounts, groupCounts0, typeCounts, g, types[..j + 1], start);
      groupCounts := groupCounts.Put(g, current.Plus(Read(typeCounts, types[j])));
      j := j + 1;
    }
    assert types[..j] == types;
  }

  /** Part way through the inner `forEach` of `parseGroupCounts`, after the
      types `done`. */
  ghost predicate AddedUpTo(groupCounts: Obj<JsNum>, groupCounts0: Obj<JsNum>, typeCounts: Obj<int>, g: string, done: seq<string>, start: JsNum) {
    && groupCounts.Valid()
    && groupCounts.at.Keys == groupCounts0.at.Keys + (if |done| > 0 then {g} else {})
    && (if g in groupCounts.at then groupCounts.at[g] else NaN) == GroupTotal(start, typeCounts, done)
    && forall x | x in groupCounts0.at && x != g :: groupCounts.at[x] == groupCounts0.at[x]
  }

  lemma AddTypeStep(groupCounts: Obj<JsNum>, groupCounts0: Obj<JsNum>, typeCounts: Obj<int>, g: string, done: seq<string>, start: JsNum)
    requires |done| > 0 && AddedUpTo(groupCounts, groupCounts0, typeCounts, g, done[..|done| - 1], start)
    ensures var current := if g in groupCounts.at then groupCounts.at[g] else NaN;
      AddedUpTo(groupCounts.Put(g, current.Plus(Read(typeCounts, done[|done| - 1]))), groupCounts0, typeCounts, g, done, start)
  {
    var current := if g in groupCounts.at then groupCounts.at[g] else NaN;
    PutValid(groupCounts, g, current.Plus(Read(typeCounts, done[|done| - 1])));
  }

  // ---------------------------------------------------------------------
  // `parseCharcs`

  /** A characteristic as `useCharacteristics` assembles it: its group and
      type, the number of its records, and the records themselves. */
  datatype CharcData = CharcData(group: string, typeId: string, count: int, records: seq<Record>)

  /** The count `getFilteredCount` gives a characteristic. */
  function FilteredCount(range: Option<(int, int)>, d: CharcData): int {
    if range.Some? then CountInRange(d.records, range.value.0, range.value.1) else d.count
  }

  /** `set.add(x)` on a set kept as a sequence in insertion order. */
  function AddMember(e: Entity, x: string): (r: Entity)
    ensures r.members == if x in e.members then e.members else e.members + [x]
    ensures r == e.(members := r.members)
  {
    if x in e.members then e else e.(members := e.members + [x])
  }

  /** The groups and types of `useCharacteristics` give every type a single
      group (the group is looked up from the type). */
  ghost predicate GroupFunctional(charcs: Obj<CharcData>) {
    forall c1, c2 | c1 in charcs.at && c2 in charcs.at && charcs.at[c1].typeId == charcs.at[c2].typeId ::
      charcs.at[c1].group == charcs.at[c2].group
  }

  function NewGroup(g: string): Entity {
    Entity(g, 0, "", "", [], 0)
  }

  function NewType(t: string, g: string): Entity {
    Entity(t, 0, g, "", [], 0)
  }

  /** The result after one kept characteristic: its group and type created
      when missing, the count added to both, the type listed in its group
      and the characteristic in its type. */
  function Added(r: Checkboxes, c: string, d: CharcData, n: int): Checkboxes {
    var g0 := if d.group in r.groups.at then r.groups.at[d.group] else NewGroup(d.group);
    var t0 := if d.typeId in r.types.at then r.types.at[d.typeId] else NewType(d.typeId, d.group);
    Checkboxes(r.all,
      r.groups.Put(d.group, AddMember(g0.(count := g0.count + n), d.typeId)),
      r.types.Put(d.typeId, AddMember(t0.(count := t0.count + n), c)),
      r.charcs.Put(c, Entity(c, n, d.group, d.typeId, [], 0)))
  }

  /** The body of the `forEach` of `parseCharcs` for a kept
      characteristic. */
  method AddCharc(result: Checkboxes, c: string, d: CharcData, newCount: int) returns (r: Checkboxes)
    ensures r == Added(result, c, d, newCount)
  {
    var charcs := result.charcs.Put(c, Entity(c, newCount, d.group, d.typeId, [], 0));
    var groups := AddToEntry(result.groups, d.group, NewGroup(d.group), newCount, d.typeId);
    var types := AddToEntry(result.types, d.typeId, NewType(d.typeId, d.group), newCount, c);
    r := Checkboxes(result.all, groups, types, charcs);
  }

  /** What `parseCharcs` does to one group (or type) entry: creates it
      when missing, adds `n` to its count and lists `member` once. */
  method AddToEntry(o: Dict, key: string, blank: Entity, n: int, member: string) returns (r: Dict)
    ensures var e := if key in o.at then o.at[key] else blank;
      r == o.Put(key, AddMember(e.(count := e.count + n), member))
  {
    r := o;
    if key !in r.at {
      r := r.Put(key, blank);
    }
    ghost var e := r.at[key];
    ghost var r0 := r;
    r := r.Put(key, r.at[key].(count := r.at[key].count + n));
    r := r.Put(key, AddMember(r.at[key], member));
    PutPut(r0, key, e.(count := e.count + n), AddMember(e.(count := e.count + n), member));
    if key !in o.at {
      PutPut(o, key, blank, AddMember(e.(count := e.count + n), member));
    }
  }

  /** Each entry's count is the sum of its members' counts. */
  ghost predicate Counted(o: Dict, children: Dict) {
    forall k | k in o.at ::
      Covers(children, o.at[k].members) && o.at[k].count == CountSum(children, o.at[k].members)
  }

  /** What `parseCharcs` has built once it has seen the characteristics
      `done`: the checkbox structure of those with a positive count, which
      keep their data, with types and groups counting the sum of their
      members and nothing yet selected. */
  ghost predicate Parsed(r: Checkboxes, input: Obj<CharcData>, range: Option<(int, int)>, done: seq<string>) {
    && r.all == 0
    && Structured(r)
    && Kept(r.charcs, input, range, done)
    && Unselected(r.types) && Unselected(r.groups)
    && Counted(r.types, r.charcs)
    && Counted(r.groups, r.types)
  }

  /** The characteristics among `done` with a positive count, with their
      data. */
  ghost predicate Kept(charcs: Dict, input: Obj<CharcData>, range: Option<(int, int)>, done: seq<string>) {
    && (forall c :: c in charcs.at <==> c in done && c in input.at && FilteredCount(range, input.at[c]) > 0)
    && (forall c | c in charcs.at ::
          c in input.at && charcs.at[c] == Entity(c, FilteredCount(range, input.at[c]), input.at[c].group, input.at[c].typeId, [], 0))
  }

  ghost predicate Unselected(o: Dict) {
    forall k | k in o.at :: o.at[k].selected == 0
  }

  lemma {:induction false} CountSumFrame(a: Dict, b: Dict, ks: seq<string>)
    requires Covers(a, ks) && Covers(b, ks)
    requires forall k | k in ks :: a.at[k].count == b.at[k].count
    ensures CountSum(a, ks) == CountSum(b, ks)
    decreases |ks|
  {
    if |ks| > 0 {
      assert forall k | k in ks[..|ks| - 1] :: k in ks;
      CountSumFrame(a, b, ks[..|ks| - 1]);
    }
  }

  lemma CountSumSnoc(o: Dict, ks: seq<string>, k: string)
    requires Covers(o, ks + [k])
    ensures Covers(o, ks)
    ensures CountSum(o, ks + [k]) == CountSum(o, ks) + o.at[k].count
  {
    assert (ks + [k])[..|ks|] == ks;
  }

  /** Raising one member's count by `n` raises the sum by `n`. */
  lemma {:induction false} CountSumBump(a: Dict, b: Dict, ks: seq<string>, k: string, n: int)
    requires Covers(a, ks) && Covers(b, ks) && Distinct(ks) && k in ks
    requires b.at[k].count == a.at[k].count + n
    requires forall x | x in ks && x != k :: a.at[x].count == b.at[x].count
    ensures CountSum(b, ks) == CountSum(a, ks) + n
    decreases |ks|
  {
    var init := ks[..|ks| - 1];
    assert forall x | x in init :: x in ks;
    assert Distinct(init);
    if ks[|ks| - 1] == k {
      assert k !in init;
      CountSumFrame(a, b, init);
    } else {
      assert k in init by {
        assert forall x | x in ks :: x in init || x == ks[|ks| - 1];
      }
      CountSumBump(a, b, init, k, n);
    }
  }

  /** The facts about one step that the lemmas below share. */
  ghost predicate StepReady(r: Checkboxes, c: string, d: CharcData) {
    && Structured(r)
    && c !in r.charcs.at
    && (d.typeId in r.types.at ==> r.types.at[d.typeId].group == d.group)
  }

  lemma AddedKeyed(r: Checkboxes, c: string, d: CharcData, n: int)
    requires StepReady(r, c, d)
    ensures KeyedById(Added(r, c, d, n).groups) && KeyedById(Added(r, c, d, n).types) && KeyedById(Added(r, c, d, n).charcs)
  {
    PutKeyed(r.groups, d.group, Added(r, c, d, n).groups.at[d.group]);
    PutKeyed(r.types, d.typeId, Added(r, c, d, n).types.at[d.typeId]);
    PutKeyed(r.charcs, c, Added(r, c, d, n).charcs.at[c]);
  }

  lemma PutKeyed(o: Dict, k: string, e: Entity)
    requires KeyedById(o) && e.id == k
    ensures KeyedById(o.Put(k, e))
  {
    PutValid(o, k, e);
  }

  lemma AddedGroupsOk(r: Checkboxes, c: string, d: CharcData, n: int)
    requires StepReady(r, c, d)
    ensures forall g | g in Added(r, c, d, n).groups.at :: GroupOk(Added(r, c, d, n), g)
  {
    var a := Added(r, c, d, n);
    forall g | g in a.groups.at ensures GroupOk(a, g) {
      if g == d.group {
        if d.group in r.groups.at {
          assert GroupOk(r, g);
        }
      } else {
        assert GroupOk(r, g);
        forall t | t in a.groups.at[g].members ensures t in a.types.at && a.types.at[t].group == g {
          assert t in r.types.at && r.types.at[t].group == g;
        }
      }
    }
  }

  lemma AddedTypesOk(r: Checkboxes, c: string, d: CharcData, n: int)
    requires StepReady(r, c, d)
    ensures forall t | t in Added(r, c, d, n).types.at :: TypeOk(Added(r, c, d, n), t)
  {
    var a := Added(r, c, d, n);
    forall t | t in a.types.at ensures TypeOk(a, t) {
      if t == d.typeId {
        if d.typeId in r.types.at {
          assert TypeOk(r, t);
        }
      } else {
        assert TypeOk(r, t);
      }
    }
  }

  lemma AddedCharcsOk(r: Checkboxes, c: string, d: CharcData, n: int)
    requires c !in r.charcs.at && (d.typeId in r.types.at ==> r.types.at[d.typeId].group == d.group)
    requires forall x | x in r.charcs.at :: CharcOk(r, x)
    ensures forall x | x in Added(r, c, d, n).charcs.at :: CharcOk(Added(r, c, d, n), x)
  {
    var a := Added(r, c, d, n);
    forall x | x in a.charcs.at ensures CharcOk(a, x) {
      if x != c {
        assert CharcOk(r, x);
      }
    }
  }

  lemma AddedTypesCounted(r: Checkboxes, c: string, d: CharcData, n: int)
    requires StepReady(r, c, d) && Counted(r.types, r.charcs)
    ensures Counted(Added(r, c, d, n).types, Added(r, c, d, n).charcs)
  {
    var a := Added(r, c, d, n);
    forall t | t in a.types.at
      ensures Covers(a.charcs, a.types.at[t].members) && a.types.at[t].count == CountSum(a.charcs, a.types.at[t].members)
    {
      if t == d.typeId {
        if t in r.types.at {
          assert TypeOk(r, t);
        }
        AddedTypeCounted(r, c, d, n);
      } else {
        assert TypeOk(r, t);
        CountSumFrame(r.charcs, a.charcs, r.types.at[t].members);
      }
    }
  }

  /** The type of the added characteristic counts it. */
  lemma AddedTypeCounted(r: Checkboxes, c: string, d: CharcData, n: int)
    requires c !in r.charcs.at
    requires d.typeId in r.types.at ==>
      && Covers(r.charcs, r.types.at[d.typeId].members)
      && r.types.at[d.typeId].count == CountSum(r.charcs, r.types.at[d.typeId].members)
    ensures var a := Added(r, c, d, n);
      Covers(a.charcs, a.types.at[d.typeId].members) && a.types.at[d.typeId].count == CountSum(a.charcs, a.types.at[d.typeId].members)
  {
    var a := Added(r, c, d, n);
    var t := d.typeId;
    var before := if t in r.types.at then r.types.at[t].members else [];
    assert c !in before;
    assert a.types.at[t].members == before + [c];
    CountSumFrame(r.charcs, a.charcs, before);
    CountSumSnoc(a.charcs, before, c);
  }

  lemma AddedGroupsCounted(r: Checkboxes, c: string, d: CharcData, n: int)
    requires StepReady(r, c, d) && Counted(r.groups, r.types)
    ensures Counted(Added(r, c, d, n).groups, Added(r, c, d, n).types)
  {
    var a := Added(r, c, d, n);
    var t := d.typeId;
    forall g | g in a.groups.at
      ensures Covers(a.types, a.groups.at[g].members) && a.groups.at[g].count == CountSum(a.types, a.groups.at[g].members)
    {
      if g == d.group {
        if g in r.groups.at {
          assert GroupOk(r, g);
        }
        if t in r.types.at {
          assert TypeOk(r, t);
        }
        AddedGroupCounted(r, c, d, n);
      } else {
        assert GroupOk(r, g);
        assert t !in r.groups.at[g].members;
        CountSumFrame(r.types, a.types, r.groups.at[g].members);
      }
    }
  }

  /** The group of the added characteristic counts it. */
  lemma AddedGroupCounted(r: Checkboxes, c: string, d: CharcData, n: int)
    requires d.group in r.groups.at ==>
      && Covers(r.types, r.groups.at[d.group].members) && Distinct(r.groups.at[d.group].members)
      && r.groups.at[d.group].count == CountSum(r.types, r.groups.at[d.group].members)
    requires d.typeId in r.types.at ==> d.group in r.groups.at && d.typeId in r.groups.at[d.group].members
    ensures var a := Added(r, c, d, n);
      Covers(a.types, a.groups.at[d.group].members) && a.groups.at[d.group].count == CountSum(a.types, a.groups.at[d.group].members)
  {
    var a := Added(r, c, d, n);
    var t := d.typeId;
    var before := if d.group in r.groups.at then r.groups.at[d.group].members else [];
    assert a.types.at[t].count == (if t in r.types.at then r.types.at[t].count else 0) + n;
    if t in before {
      CountSumBump(r.types, a.types, before, t, n);
    } else {
      assert t !in r.types.at;
      assert a.groups.at[d.group].members == before + [t];
      CountSumFrame(r.types, a.types, before);
      CountSumSnoc(a.types, before, t);
    }
  }

  /** A type already present has the group of the characteristic being
      added. */
  lemma TypeGroupAgrees(r: Checkboxes, input: Obj<CharcData>, range: Option<(int, int)>, done: seq<string>, c: string)
    requires Parsed(r, input, range, done) && GroupFunctional(input) && c in input.at
    ensures input.at[c].typeId in r.types.at ==> r.types.at[input.at[c].typeId].group == input.at[c].group
  {
    var t := input.at[c].typeId;
    if t in r.types.at {
      assert TypeOk(r, t);
      var c' := r.types.at[t].members[0];
      assert c' in r.types.at[t].members;
      assert CharcOk(r, c');
    }
  }

  lemma AddedParsed(r: Checkboxes, input: Obj<CharcData>, range: Option<(int, int)>, done: seq<string>, c: string)
    requires Parsed(r, input, range, done) && GroupFunctional(input)
    requires c in input.at && c !in done && FilteredCount(range, input.at[c]) > 0
    ensures Parsed(Added(r, c, input.at[c], FilteredCount(range, input.at[c])), input, range, done + [c])
  {
    var d := input.at[c];
    var n := FilteredCount(range, d);
    var a := Added(r, c, d, n);
    assert StepReady(r, c, d) by {
      TypeGroupAgrees(r, input, range, done, c);
    }
    assert Structured(a) by {
      AddedKeyed(r, c, d, n);
      AddedGroupsOk(r, c, d, n);
      AddedTypesOk(r, c, d, n);
      AddedCharcsOk(r, c, d, n);
    }
    assert Counted(a.types, a.charcs) && Counted(a.groups, a.types) by {
      AddedTypesCounted(r, c, d, n);
      AddedGroupsCounted(r, c, d, n);
    }
    AddedKept(r, input, range, done, c);
    AddedUnselected(r, c, d, n);
  }

  lemma AddedKept(r: Checkboxes, input: Obj<CharcData>, range: Option<(int, int)>, done: seq<string>, c: string)
    requires Kept(r.charcs, input, range, done)
    requires c in input.at && FilteredCount(range, input.at[c]) > 0
    ensures Kept(Added(r, c, input.at[c], FilteredCount(range, input.at[c])).charcs, input, range, done + [c])
  {
    assert forall x :: x in done + [c] <==> x in done || x == c;
  }

  lemma AddedUnselected(r: Checkboxes, c: string, d: CharcData, n: int)
    requires Unselected(r.types) && Unselected(r.groups)
    ensures Unselected(Added(r, c, d, n).types) && Unselected(Added(r, c, d, n).groups)
  {
  }

  /** `parseCharcs`: the characteristics with a positive count in the range,
      filed under their types and groups, each type and group counting the
      sum of its members. */
  method ParseCharcs(charcs: Obj<CharcData>, range: Option<(int, int)>) returns (result: Checkboxes)
    requires charcs.Valid() && GroupFunctional(charcs)
    ensures Parsed(result, charcs, range, charcs.keys)
  {
    result := Checkboxes(0, Empty(), Empty(), Empty());
    var keys := charcs.keys;
    var i := 0;
    while i < |keys|
      invariant 0 <= i <= |keys|
      invariant Parsed(result, charcs, range, keys[..i])
    {
      var charc := keys[i];
      var data := charcs.at[charc];
      assert keys[..i + 1] == keys[..i] + [charc];
      assert charc !in keys[..i];
      var newCount := GetFilteredCount(range, data.records, data.count);
      if newCount > 0 {
        AddedParsed(result, charcs, range, keys[..i], charc);
        result := AddCharc(result, charc, data, newCount);
      } else {
        assert forall x :: x in keys[..i + 1] <==> x in keys[..i] || x == charc;
      }
      i := i + 1;
    }
    assert keys[..i] == keys;
  }

  /** What `parseCharcs` builds is what `loadNewData` needs: loading it
      gives a well-formed state, consistent under the rule used, holding
      exactly the characteristics with records in the range. */
  lemma ParsedLoads(rule: Rule, r: Checkboxes, input: Obj<CharcData>, range: Option<(int, int)>, state: Checkboxes)
    requires Parsed(r, input, range, input.keys) && input.Valid()
    requires forall c | c in state.charcs.at :: state.charcs.at[c].selected == 0 || state.charcs.at[c].selected == 1
    ensures Wf(Load(rule, r, state)) && Consistent(rule, Load(rule, r, state))
    ensures forall c :: c in Load(rule, r, state).charcs.at <==> c in input.at && FilteredCount(range, input.at[c]) > 0
  {
    LoadKeeps(rule, r, state);
  }
}
