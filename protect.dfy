/** The Protect tab of the community page: the state names of a protected
    river, the visible-layer map handed to the map context, and the list of
    watershed-protection projects merged from GRTS (nonpoint-source grant
    projects) and ATTAINS (restoration and protection plans). */
module Protect {
  import opened Wrappers
  import opened JsObjects
  import opened JsStrings

  // ---------------------------------------------------------------------
  // convertStateCode

  /** An entry of the ATTAINS states service. */
  datatype State = State(code: string, name: string)

  /** `stateData.filter((s) => s.code === code)[0]`: the first state with
      that code, `None` for `undefined`. */
  function FirstMatch(stateData: seq<State>, code: string): (r: Option<State>)
    ensures r.None? <==> forall i | 0 <= i < |stateData| :: stateData[i].code != code
    ensures r.Some? ==> exists i | 0 <= i < |stateData| ::
      && stateData[i] == r.value
      && r.value.code == code
      && forall j | 0 <= j < i :: stateData[j].code != code
  {
    if |stateData| == 0 then None
    else if stateData[0].code == code then Some(stateData[0])
    else
      var r := FirstMatch(stateData[1..], code);
      assert r.Some? ==> exists i | 0 <= i < |stateData| ::
        stateData[i] == r.value && r.value.code == code && forall j | 0 <= j < i :: stateData[j].code != code by {
        if r.Some? {
          var i :| 0 <= i < |stateData[1..]| && stateData[1..][i] == r.value && r.value.code == code
            && forall j | 0 <= j < i :: stateData[1..][j].code != code;
          assert forall j | 0 <= j < i + 1 :: stateData[j].code != code by {
            forall j | 0 <= j < i + 1 ensures stateData[j].code != code {
              if j > 0 { assert stateData[j] == stateData[1..][j - 1]; }
            }
          }
        }
      }
      r
  }

  /** The names pushed by the `forEach` over `codes`: one for every code
      that has a matching state, in the order of the codes. */
  function StateNames(stateData: seq<State>, codes: seq<string>): (names: seq<string>)
    ensures |names| <= |codes|
  {
    if |codes| == 0 then []
    else
      var rest := StateNames(stateData, codes[..|codes| - 1]);
      match FirstMatch(stateData, codes[|codes| - 1])
      case Some(s) => rest + [s.name]
      case None => rest
  }

  lemma {:induction false} StateNamesSound(stateData: seq<State>, codes: seq<string>, x: string)
    requires x in StateNames(stateData, codes)
    ensures exists i | 0 <= i < |codes| :: FirstMatch(stateData, codes[i]) == Some(State(codes[i], x))
  {
    var init := codes[..|codes| - 1];
    if x in StateNames(stateData, init) {
      StateNamesSound(stateData, init, x);
      var i :| 0 <= i < |init| && FirstMatch(stateData, init[i]) == Some(State(init[i], x));
      assert codes[i] == init[i];
    } else {
      var m := FirstMatch(stateData, codes[|codes| - 1]);
      assert m.Some? && m.value.name == x;
    }
  }

  lemma {:induction false} StateNamesComplete(stateData: seq<State>, codes: seq<string>, i: nat)
    requires i < |codes| && FirstMatch(stateData, codes[i]).Some?
    ensures FirstMatch(stateData, codes[i]).value.name in StateNames(stateData, codes)
  {
    var init := codes[..|codes| - 1];
    StateNamesSnoc(stateData, codes);
    if i < |init| {
      assert codes[i] == init[i];
      StateNamesComplete(stateData, init, i);
    }
  }

  /** The last code adds its state's name when it has one. */
  lemma StateNamesSnoc(stateData: seq<State>, codes: seq<string>)
    requires |codes| > 0
    ensures var m := FirstMatch(stateData, codes[|codes| - 1]);
      StateNames(stateData, codes) == StateNames(stateData, codes[..|codes| - 1]) + (if m.Some? then [m.value.name] else [])
  {
  }

  /** A name is listed exactly when some code has a matching state of that
      name; codes without a match contribute nothing. */
  lemma StateNamesMembers(stateData: seq<State>, codes: seq<string>, x: string)
    ensures x in StateNames(stateData, codes) <==>
      exists i | 0 <= i < |codes| :: FirstMatch(stateData, codes[i]) == Some(State(codes[i], x))
  {
    if x in StateNames(stateData, codes) {
      StateNamesSound(stateData, codes, x);
    }
    if exists i | 0 <= i < |codes| :: FirstMatch(stateData, codes[i]) == Some(State(codes[i], x)) {
      var i :| 0 <= i < |codes| && FirstMatch(stateData, codes[i]) == Some(State(codes[i], x));
      StateNamesComplete(stateData, codes, i);
    }
  }

  /** Every code matches a state exactly when no code is dropped. */
  lemma {:induction false} StateNamesAllMatched(stateData: seq<State>, codes: seq<string>)
    ensures |StateNames(stateData, codes)| == |codes| <==>
      forall i | 0 <= i < |codes| :: FirstMatch(stateData, codes[i]).Some?
  {
    if |codes| > 0 {
      var init := codes[..|codes| - 1];
      StateNamesAllMatched(stateData, init);
      StateNamesSnoc(stateData, codes);
      assert forall i | 0 <= i < |init| :: init[i] == codes[i];
      if FirstMatch(stateData, codes[|codes| - 1]).None? {
        assert |StateNames(stateData, codes)| < |codes|;
      }
    }
  }

  /** `list.slice(0, -1)`: all but the last element. */
  function AllButLast(names: seq<string>): (init: seq<string>)
    ensures |names| > 0 ==> init == names[..|names| - 1]
    ensures |names| == 0 ==> init == []
  {
    if |names| == 0 then [] else names[..|names| - 1]
  }

  /** `String(list.slice(-1))`: the last element, or `""` for an empty list. */
  function LastText(names: seq<string>): (t: string)
    ensures |names| > 0 ==> t == names[|names| - 1]
    ensures |names| == 0 ==> t == ""
  {
    if |names| == 0 then "" else names[|names| - 1]
  }

  /** The `forEach` of `convertStateCode`: pushes the name of the first
      state matching each code, skipping codes without a match. */
  method CollectNames(stateData: seq<State>, stateCodes: seq<string>) returns (stateNames: seq<string>)
    ensures stateNames == StateNames(stateData, stateCodes)
  {
    stateNames := [];
    var i := 0;
    while i < |stateCodes|
      invariant i <= |stateCodes|
      invariant stateNames == StateNames(stateData, stateCodes[..i])
    {
      var matchingState := FirstMatch(stateData, stateCodes[i]);
      if matchingState.Some? {
        stateNames := stateNames + [matchingState.value.name];
      }
      assert stateCodes[..i + 1][..i] == stateCodes[..i];
      i := i + 1;
    }
    assert stateCodes[..i] == stateCodes;
  }

  /** `convertStateCode`: the state names of a comma-separated code list.
      With no state data the codes come back as given; a single match is
      returned alone; otherwise the names are sorted and joined with `", "`,
      with `" and "` before the last; when nothing matched the result is
      `" and "`. */
  method ConvertStateCode(stateCode: string, stateData: seq<State>) returns (r: string)
    ensures |stateData| == 0 ==> r == stateCode
    ensures |stateData| > 0 ==>
      var names := StateNames(stateData, Split(stateCode, ","));
      var sorted := SortBy(names, LexLe);
      && SortedBy(sorted, LexLe)
      && multiset(sorted) == multiset(names)
      && (|names| == 0 ==> r == " and ")
      && (|names| == 1 ==> r == names[0])
      && (|names| >= 2 ==> r == Join(sorted[..|sorted| - 1], ", ") + " and " + sorted[|sorted| - 1])
  {
    if |stateData| == 0 {
      return stateCode;
    }
    var stateCodes := Split(stateCode, ",");
    var stateNames := CollectNames(stateData, stateCodes);
    LexLeIsTotal();
    SortByCorrect(stateNames, LexLe);
    if |stateNames| == 1 {
      return stateNames[0];
    }
    stateNames := SortBy(stateNames, LexLe);
    r := Join(AllButLast(stateNames), ", ") + " and " + LastText(stateNames);
  }

  /** `stateNames.sort()` sorts in place by its own algorithm; any sorted
      arrangement of the same names is the one the model computes. */
  lemma NativeSortAgrees(names: seq<string>, sorted: seq<string>)
    requires SortedBy(sorted, LexLe) && multiset(sorted) == multiset(names)
    ensures sorted == SortBy(names, LexLe)
  {
    LexLeIsTotal();
    SortByCorrect(names, LexLe);
    SortedStringsUnique(sorted, SortBy(names, LexLe));
  }

  /** Steps of `ExampleTwoStates`: the split, the sort and the lookup,
      for the codes in either order. */
  lemma SplitExample()
    ensures Split("VA,AL", ",") == ["VA", "AL"]
    ensures Split("AL,VA", ",") == ["AL", "VA"]
  {
    var s := "VA,AL";
    assert OccursAt(s, ",", 2);
    assert IndexOf(s, ",", 0) == Some(2) by {
      assert s[0..1][0] == 'V' && s[1..2][0] == 'A';
    }
    assert IndexOf(s, ",", 3) == None by {
      assert s[3..4][0] == 'A' && s[4..5][0] == 'L';
    }
    assert s[0..2] == "VA" && s[3..] == "AL";
    var t := "AL,VA";
    assert OccursAt(t, ",", 2);
    assert IndexOf(t, ",", 0) == Some(2) by {
      assert t[0..1][0] == 'A' && t[1..2][0] == 'L';
    }
    assert IndexOf(t, ",", 3) == None by {
      assert t[3..4][0] == 'V' && t[4..5][0] == 'A';
    }
    assert t[0..2] == "AL" && t[3..] == "VA";
  }

  lemma SortExample()
    ensures SortBy(["Virginia", "Alabama"], LexLe) == ["Alabama", "Virginia"]
    ensures SortBy(["Alabama", "Virginia"], LexLe) == ["Alabama", "Virginia"]
  {
    assert LexLe("Alabama", "Virginia") && !LexLe("Virginia", "Alabama");
    var names := ["Virginia", "Alabama"];
    assert names[..1] == ["Virginia"];
    assert SortBy(["Virginia"], LexLe) == ["Virginia"] by {
      assert ["Virginia"][..0] == [];
    }
    assert SortBy(names, LexLe) == Insert("Alabama", SortBy(["Virginia"], LexLe), LexLe);
    var other := ["Alabama", "Virginia"];
    assert other[..1] == ["Alabama"];
    assert SortBy(["Alabama"], LexLe) == ["Alabama"] by {
      assert ["Alabama"][..0] == [];
    }
    assert SortBy(other, LexLe) == Insert("Virginia", SortBy(["Alabama"], LexLe), LexLe);
  }

  lemma NamesExample()
    ensures StateNames([State("AL", "Alabama"), State("VA", "Virginia")], ["VA", "AL"]) == ["Virginia", "Alabama"]
    ensures StateNames([State("AL", "Alabama"), State("VA", "Virginia")], ["AL", "VA"]) == ["Alabama", "Virginia"]
  {
    var data := [State("AL", "Alabama"), State("VA", "Virginia")];
    assert FirstMatch(data, "VA") == Some(State("VA", "Virginia")) by {
      assert data[0].code != "VA" by { assert data[0].code[0] == 'A'; }
      assert data[1..][0].code == "VA";
    }
    assert FirstMatch(data, "AL") == Some(State("AL", "Alabama"));
    var codes := ["VA", "AL"];
    assert codes[..1] == ["VA"];
    var other := ["AL", "VA"];
    assert other[..1] == ["AL"];
  }

  /** The example of the source's comment, `AL,VA`, and the same codes in
      the other order: both read "Alabama and Virginia". */
  lemma ExampleTwoStates()
    ensures
      var data := [State("AL", "Alabama"), State("VA", "Virginia")];
      var names := StateNames(data, Split("AL,VA", ","));
      var sorted := SortBy(names, LexLe);
      && names == ["Alabama", "Virginia"]
      && Join(sorted[..|sorted| - 1], ", ") + " and " + sorted[|sorted| - 1] == "Alabama" + " and " + "Virginia"
    ensures
      var data := [State("AL", "Alabama"), State("VA", "Virginia")];
      var names := StateNames(data, Split("VA,AL", ","));
      var sorted := SortBy(names, LexLe);
      && names == ["Virginia", "Alabama"]
      && Join(sorted[..|sorted| - 1], ", ") + " and " + sorted[|sorted| - 1] == "Alabama" + " and " + "Virginia"
  {
    SplitExample();
    SortExample();
    NamesExample();
    var sorted := ["Alabama", "Virginia"];
    assert sorted[..1] == ["Alabama"];
  }

  // ---------------------------------------------------------------------
  // updateVisibleLayers

  /** A value of the visible-layers map: `undefined`, `null` or a flag. */
  datatype Value = Undefined | Null | Bool(b: bool)

  /** One of the tab's layers: whether the service behind it failed, and
      whether the map layer object exists yet. */
  datatype Layer = Layer(failed: bool, loaded: bool)

  /** The four layers of the tab, in the order the map is filled: the WSIO
      health index, the protected areas, the wild and scenic rivers, and
      the waterbody layer (backed by the CIP summary). */
  datatype LayerKey = WsioHealthIndexLayer | ProtectedAreasLayer | WildScenicRiversLayer | WaterbodyLayer

  datatype Layers = Layers(wsioHealthIndex: Layer, protectedAreas: Layer, wildScenicRivers: Layer, waterbody: Layer)

  /** The tab's display toggles. */
  datatype Displayed = Displayed(healthScores: bool, protectedAreas: bool, wildScenicRivers: bool)

  /** The map `updateVisibleLayers` builds. It only ever receives these four
      keys, in this order, so an entry is present or absent per layer. */
  datatype Entries = Entries(wsioHealthIndex: Option<Value>, protectedAreas: Option<Value>, wildScenicRivers: Option<Value>, waterbody: Option<Value>)

  /** The map key of a layer. */
  function Name(k: LayerKey): string {
    match k
    case WsioHealthIndexLayer => "wsioHealthIndexLayer"
    case ProtectedAreasLayer => "protectedAreasLayer"
    case WildScenicRiversLayer => "wildScenicRiversLayer"
    case WaterbodyLayer => "waterbodyLayer"
  }

  /** The layer a map key names, if any. */
  function KeyOf(name: string): (r: Option<LayerKey>)
    ensures r.Some? ==> Name(r.value) == name
  {
    if name == "wsioHealthIndexLayer" then Some(WsioHealthIndexLayer)
    else if name == "protectedAreasLayer" then Some(ProtectedAreasLayer)
    else if name == "wildScenicRiversLayer" then Some(WildScenicRiversLayer)
    else if name == "waterbodyLayer" then Some(WaterbodyLayer)
    else None
  }

  /** A key names a layer exactly when it is that layer's name. */
  lemma KeyOfName(name: string, k: LayerKey)
    ensures KeyOf(name) == Some(k) <==> name == Name(k)
  {
  }

  function LayerOf(layers: Layers, k: LayerKey): Layer {
    match k
    case WsioHealthIndexLayer => layers.wsioHealthIndex
    case ProtectedAreasLayer => layers.protectedAreas
    case WildScenicRiversLayer => layers.wildScenicRivers
    case WaterbodyLayer => layers.waterbody
  }

  /** The toggle a loaded layer follows; the waterbody layer is given
      `false` whatever its own toggle says. */
  function Toggle(d: Displayed, k: LayerKey): bool {
    match k
    case WsioHealthIndexLayer => d.healthScores
    case ProtectedAreasLayer => d.protectedAreas
    case WildScenicRiversLayer => d.wildScenicRivers
    case WaterbodyLayer => false
  }

  function Entry(e: Entries, k: LayerKey): Option<Value> {
    match k
    case WsioHealthIndexLayer => e.wsioHealthIndex
    case ProtectedAreasLayer => e.protectedAreas
    case WildScenicRiversLayer => e.wildScenicRivers
    case WaterbodyLayer => e.waterbody
  }

  /** `visibleLayers[k]`. */
  function Lookup(o: Obj<Value>, k: string): Value {
    if k in o.at then o.at[k] else Undefined
  }

  /** The value a layer is given: the current entry when the layer object
      does not exist yet or the caller asks to keep current values, its
      toggle otherwise. */
  function Shown(layer: Layer, visibleLayers: Obj<Value>, name: string, toggle: bool, useCurrentValue: bool): Value {
    if !layer.loaded || useCurrentValue then Lookup(visibleLayers, name) else Bool(toggle)
  }

  /** The entry a layer ends with: none when its service failed; otherwise
      `newValue` when `key` names it, else its shown value. `key` is `None`
      for the default `null`, which names no entry. */
  function Expected(layers: Layers, d: Displayed, visibleLayers: Obj<Value>, key: Option<string>, newValue: Value, useCurrentValue: bool, k: LayerKey): Option<Value> {
    if LayerOf(layers, k).failed then None
    else if key.Some? && KeyOf(key.value) == Some(k) then Some(newValue)
    else Some(Shown(LayerOf(layers, k), visibleLayers, Name(k), Toggle(d, k), useCurrentValue))
  }

  /** `e` is the map `updateVisibleLayers` builds for these inputs. */
  ghost predicate Describes(e: Entries, layers: Layers, d: Displayed, visibleLayers: Obj<Value>, key: Option<string>, newValue: Value, useCurrentValue: bool) {
    && e.wsioHealthIndex == Expected(layers, d, visibleLayers, key, newValue, useCurrentValue, WsioHealthIndexLayer)
    && e.protectedAreas == Expected(layers, d, visibleLayers, key, newValue, useCurrentValue, ProtectedAreasLayer)
    && e.wildScenicRivers == Expected(layers, d, visibleLayers, key, newValue, useCurrentValue, WildScenicRiversLayer)
    && e.waterbody == Expected(layers, d, visibleLayers, key, newValue, useCurrentValue, WaterbodyLayer)
  }

  lemma DescribesEntry(e: Entries, layers: Layers, d: Displayed, visibleLayers: Obj<Value>, key: Option<string>, newValue: Value, useCurrentValue: bool)
    ensures Describes(e, layers, d, visibleLayers, key, newValue, useCurrentValue) <==>
      forall k: LayerKey :: Entry(e, k) == Expected(layers, d, visibleLayers, key, newValue, useCurrentValue, k)
  {
    if forall k: LayerKey :: Entry(e, k) == Expected(layers, d, visibleLayers, key, newValue, useCurrentValue, k) {
      assert Entry(e, WsioHealthIndexLayer) == Expected(layers, d, visibleLayers, key, newValue, useCurrentValue, WsioHealthIndexLayer);
      assert Entry(e, ProtectedAreasLayer) == Expected(layers, d, visibleLayers, key, newValue, useCurrentValue, ProtectedAreasLayer);
      assert Entry(e, WildScenicRiversLayer) == Expected(layers, d, visibleLayers, key, newValue, useCurrentValue, WildScenicRiversLayer);
      assert Entry(e, WaterbodyLayer) == Expected(layers, d, visibleLayers, key, newValue, useCurrentValue, WaterbodyLayer);
    }
  }

  /** `newVisibleLayers.hasOwnProperty(key)` */
  predicate HasOwn(e: Entries, name: string) {
    KeyOf(name).Some? && Entry(e, KeyOf(name).value).Some?
  }

  /** `newVisibleLayers[k] = v`. */
  function SetEntry(e: Entries, k: LayerKey, v: Value): (r: Entries)
    ensures Entry(r, k) == Some(v)
    ensures forall k' | k' != k :: Entry(r, k') == Entry(e, k')
  {
    match k
    case WsioHealthIndexLayer => e.(wsioHealthIndex := Some(v))
    case ProtectedAreasLayer => e.(protectedAreas := Some(v))
    case WildScenicRiversLayer => e.(wildScenicRivers := Some(v))
    case WaterbodyLayer => e.(waterbody := Some(v))
  }

  /** The entry as `JSON.stringify` prints it: nothing when absent or
      `undefined`. */
  function Printed(k: LayerKey, v: Option<Value>): seq<(string, Value)> {
    if v.Some? && v.value != Undefined then [(Name(k), v.value)] else []
  }

  /** What `JSON.stringify` prints of the new map, as its list of entries. */
  function EntriesJson(e: Entries): seq<(string, Value)> {
    Printed(WsioHealthIndexLayer, e.wsioHealthIndex) + Printed(ProtectedAreasLayer, e.protectedAreas)
    + Printed(WildScenicRiversLayer, e.wildScenicRivers) + Printed(WaterbodyLayer, e.waterbody)
  }

  /** What `JSON.stringify` prints of any map of values: the entries whose
      value is not `undefined`, in key order. */
  function Json(o: Obj<Value>): (pairs: seq<(string, Value)>)
    ensures |pairs| <= |o.keys|
    decreases |o.keys|
  {
    if |o.keys| == 0 then []
    else
      var k := o.keys[0];
      (if k in o.at && o.at[k] != Undefined then [(k, o.at[k])] else []) + Json(Obj(o.keys[1..], o.at))
  }

  lemma {:induction false} JsonConcat(a: seq<string>, b: seq<string>, at: map<string, Value>)
    ensures Json(Obj(a + b, at)) == Json(Obj(a, at)) + Json(Obj(b, at))
    decreases |a|
  {
    if |a| == 0 {
      assert a + b == b;
    } else {
      assert (a + b)[0] == a[0];
      assert (a + b)[1..] == a[1..] + b;
      JsonConcat(a[1..], b, at);
    }
  }

  function Present(k: LayerKey, v: Option<Value>): seq<string> {
    if v.Some? then [Name(k)] else []
  }

  /** The value stored under a key of the new map. */
  function ValueAt(e: Entries, name: string): Value {
    match KeyOf(name)
    case Some(k) => Entry(e, k).GetOr(Undefined)
    case None => Undefined
  }

  /** The new map as the object stored in the context. */
  function ToObj(e: Entries): Obj<Value> {
    var ks := Present(WsioHealthIndexLayer, e.wsioHealthIndex) + Present(ProtectedAreasLayer, e.protectedAreas)
      + Present(WildScenicRiversLayer, e.wildScenicRivers) + Present(WaterbodyLayer, e.waterbody);
    Obj(ks, map name | name in ks :: ValueAt(e, name))
  }

  /** Reading a layer's key from the stored object gives its entry. */
  lemma LookupToObj(e: Entries, k: LayerKey)
    ensures Lookup(ToObj(e), Name(k)) == Entry(e, k).GetOr(Undefined)
  {
    KeyOfName(Name(k), k);
    forall k': LayerKey | Name(k') == Name(k) ensures k' == k {
      KeyOfName(Name(k'), k');
    }
  }

  lemma PrintedPiece(e: Entries, k: LayerKey)
    ensures Json(Obj(Present(k, Entry(e, k)), ToObj(e).at)) == Printed(k, Entry(e, k))
  {
    if Entry(e, k).Some? {
      LookupToObj(e, k);
      assert Present(k, Entry(e, k))[1..] == [];
    }
  }

  /** `newVisibleLayers` after the override. */
  function Overridden(e: Entries, key: Option<string>, newValue: Value): Entries {
    if key.Some? && HasOwn(e, key.value) then SetEntry(e, KeyOf(key.value).value, newValue) else e
  }

  lemma OverrideAt(e: Entries, layers: Layers, d: Displayed, visibleLayers: Obj<Value>, key: Option<string>, newValue: Value, useCurrentValue: bool, k: LayerKey)
    requires Entry(e, k) == Expected(layers, d, visibleLayers, None, Null, useCurrentValue, k)
    ensures Entry(Overridden(e, key, newValue), k) == Expected(layers, d, visibleLayers, key, newValue, useCurrentValue, k)
  {
  }

  /** The override replaces the entry its key names when that entry is
      present, and nothing else. */
  lemma OverrideDescribes(e: Entries, layers: Layers, d: Displayed, visibleLayers: Obj<Value>, key: Option<string>, newValue: Value, useCurrentValue: bool)
    requires Describes(e, layers, d, visibleLayers, None, Null, useCurrentValue)
    ensures Describes(Overridden(e, key, newValue), layers, d, visibleLayers, key, newValue, useCurrentValue)
  {
    OverrideAt(e, layers, d, visibleLayers, key, newValue, useCurrentValue, WsioHealthIndexLayer);
    OverrideAt(e, layers, d, visibleLayers, key, newValue, useCurrentValue, ProtectedAreasLayer);
    OverrideAt(e, layers, d, visibleLayers, key, newValue, useCurrentValue, WildScenicRiversLayer);
    OverrideAt(e, layers, d, visibleLayers, key, newValue, useCurrentValue, WaterbodyLayer);
  }

  /** The first half of `updateVisibleLayers`: a fresh map filled field by
      field, skipping the layers whose service failed. */
  method FillVisibleLayers(layers: Layers, d: Displayed, visibleLayers: Obj<Value>, useCurrentValue: bool) returns (newVisibleLayers: Entries)
    ensures Describes(newVisibleLayers, layers, d, visibleLayers, None, Null, useCurrentValue)
  {
    var wsioHealthIndex: Option<Value> := None;
    var protectedAreas: Option<Value> := None;
    var wildScenicRivers: Option<Value> := None;
    var waterbody: Option<Value> := None;
    if !layers.wsioHealthIndex.failed {
      wsioHealthIndex := Some(Shown(layers.wsioHealthIndex, visibleLayers, Name(WsioHealthIndexLayer), d.healthScores, useCurrentValue));
    }
    assert wsioHealthIndex == Expected(layers, d, visibleLayers, None, Null, useCurrentValue, WsioHealthIndexLayer);
    if !layers.protectedAreas.failed {
      protectedAreas := Some(Shown(layers.protectedAreas, visibleLayers, Name(ProtectedAreasLayer), d.protectedAreas, useCurrentValue));
    }
    assert protectedAreas == Expected(layers, d, visibleLayers, None, Null, useCurrentValue, ProtectedAreasLayer);
    if !layers.wildScenicRivers.failed {
      wildScenicRivers := Some(Shown(layers.wildScenicRivers, visibleLayers, Name(WildScenicRiversLayer), d.wildScenicRivers, useCurrentValue));
    }
    assert wildScenicRivers == Expected(layers, d, visibleLayers, None, Null, useCurrentValue, WildScenicRiversLayer);
    if !layers.waterbody.failed {
      waterbody := Some(Shown(layers.waterbody, visibleLayers, Name(WaterbodyLayer), false, useCurrentValue));
    }
    assert waterbody == Expected(layers, d, visibleLayers, None, Null, useCurrentValue, WaterbodyLayer);
    newVisibleLayers := Entries(wsioHealthIndex, protectedAreas, wildScenicRivers, waterbody);
  }

  /** `updateVisibleLayers`: fills a fresh map field by field, applies the
      override when its key is present, and reports whether the map is
      set, which happens exactly when its JSON text changed. */
  method UpdateVisibleLayers(layers: Layers, d: Displayed, visibleLayers: Obj<Value>, key: Option<string>, newValue: Value, useCurrentValue: bool)
    returns (newVisibleLayers: Entries, changed: bool)
    ensures Describes(newVisibleLayers, layers, d, visibleLayers, key, newValue, useCurrentValue)
    ensures changed <==> Json(visibleLayers) != EntriesJson(newVisibleLayers)
  {
    newVisibleLayers := FillVisibleLayers(layers, d, visibleLayers, useCurrentValue);
    ghost var filled := newVisibleLayers;
    OverrideDescribes(newVisibleLayers, layers, d, visibleLayers, key, newValue, useCurrentValue);
    if key.Some? && HasOwn(newVisibleLayers, key.value) {
      newVisibleLayers := SetEntry(newVisibleLayers, KeyOf(key.value).value, newValue);
    }
    assert newVisibleLayers == Overridden(filled, key, newValue);
    changed := Json(visibleLayers) != EntriesJson(newVisibleLayers);
  }

  /** An override whose key names no present layer changes nothing. */
  lemma AbsentKeyIgnored(e: Entries, layers: Layers, d: Displayed, visibleLayers: Obj<Value>, key: string, newValue: Value, useCurrentValue: bool)
    requires KeyOf(key).Some? ==> LayerOf(layers, KeyOf(key).value).failed
    ensures Describes(e, layers, d, visibleLayers, Some(key), newValue, useCurrentValue)
      <==> Describes(e, layers, d, visibleLayers, None, newValue, useCurrentValue)
  {
  }

  /** A loaded layer that is not overridden shows its toggle; the waterbody
      layer is switched off once loaded. */
  lemma LoadedLayersFollowToggles(e: Entries, layers: Layers, d: Displayed, visibleLayers: Obj<Value>, newValue: Value)
    requires Describes(e, layers, d, visibleLayers, None, newValue, false)
    requires layers.wsioHealthIndex == Layer(false, true) && layers.waterbody == Layer(false, true)
    ensures e.wsioHealthIndex == Some(Bool(d.healthScores))
    ensures e.waterbody == Some(Bool(false))
  {
    assert Entry(e, WsioHealthIndexLayer) == Expected(layers, d, visibleLayers, None, newValue, false, WsioHealthIndexLayer);
    assert Entry(e, WaterbodyLayer) == Expected(layers, d, visibleLayers, None, newValue, false, WaterbodyLayer);
  }

  /** Printing the stored object gives the entries of the new map. */
  lemma ToObjJson(e: Entries)
    ensures Json(ToObj(e)) == EntriesJson(e)
  {
    var at := ToObj(e).at;
    var a := Present(WsioHealthIndexLayer, e.wsioHealthIndex);
    var b := Present(ProtectedAreasLayer, e.protectedAreas);
    var c := Present(WildScenicRiversLayer, e.wildScenicRivers);
    var w := Present(WaterbodyLayer, e.waterbody);
    JsonConcat(a + b + c, w, at);
    JsonConcat(a + b, c, at);
    JsonConcat(a, b, at);
    PrintedPiece(e, WsioHealthIndexLayer);
    PrintedPiece(e, ProtectedAreasLayer);
    PrintedPiece(e, WildScenicRiversLayer);
    PrintedPiece(e, WaterbodyLayer);
  }

  /** Refreshing with `useCurrentValue` right after an update rebuilds the
      same map, so nothing is set again. */
  lemma RefreshAfterUpdateIsStable(e: Entries, e': Entries, layers: Layers, d: Displayed, visibleLayers: Obj<Value>, key: Option<string>, newValue: Value, useCurrentValue: bool, d': Displayed)
    requires Describes(e, layers, d, visibleLayers, key, newValue, useCurrentValue)
    requires Describes(e', layers, d', ToObj(e), None, Null, true)
    ensures e' == e
    ensures Json(ToObj(e)) == EntriesJson(e')
  {
    DescribesEntry(e, layers, d, visibleLayers, key, newValue, useCurrentValue);
    DescribesEntry(e', layers, d', ToObj(e), None, Null, true);
    forall k: LayerKey ensures Entry(e', k) == Entry(e, k) {
      LookupToObj(e, k);
      assert Entry(e', k) == Expected(layers, d', ToObj(e), None, Null, true, k);
      assert Entry(e, k) == Expected(layers, d, visibleLayers, key, newValue, useCurrentValue, k);
    }
    assert Entry(e', WsioHealthIndexLayer) == Entry(e, WsioHealthIndexLayer);
    assert Entry(e', ProtectedAreasLayer) == Entry(e, ProtectedAreasLayer);
    assert Entry(e', WildScenicRiversLayer) == Entry(e, WildScenicRiversLayer);
    assert Entry(e', WaterbodyLayer) == Entry(e, WaterbodyLayer);
    ToObjJson(e);
  }

  /** Entries that are `undefined` print nothing: a first update before any
      layer exists, over an empty map, sets nothing although it adds keys. */
  lemma UndefinedEntriesSetNothing(e: Entries, layers: Layers, d: Displayed)
    requires Describes(e, layers, d, Empty(), None, Null, false)
    requires !layers.wsioHealthIndex.failed
    requires !layers.wsioHealthIndex.loaded && !layers.protectedAreas.loaded
    requires !layers.wildScenicRivers.loaded && !layers.waterbody.loaded
    ensures ToObj(e) != Empty()
    ensures Json(Empty()) == EntriesJson(e)
  {
    assert Entry(e, WsioHealthIndexLayer) == Expected(layers, d, Empty(), None, Null, false, WsioHealthIndexLayer);
    assert Entry(e, ProtectedAreasLayer) == Expected(layers, d, Empty(), None, Null, false, ProtectedAreasLayer);
    assert Entry(e, WildScenicRiversLayer) == Expected(layers, d, Empty(), None, Null, false, WildScenicRiversLayer);
    assert Entry(e, WaterbodyLayer) == Expected(layers, d, Empty(), None, Null, false, WaterbodyLayer);
    assert "wsioHealthIndexLayer" in ToObj(e).at;
  }

  // ---------------------------------------------------------------------
  // Projects

  /** Where a project comes from. */
  datatype Source = Grts | Attains

  /** A GRTS project as the service returns it (the fields read here). */
  datatype GrtsItem = GrtsItem(wsProtectInd: Option<string>, prjTitle: string, prjSeq: string, status: string)

  /** An ATTAINS plan as the service returns it (the fields read here). */
  datatype Plan = Plan(actionTypeCode: string, actionName: string, actionIdentifier: string, actionStatusCode: string)

  /** A normalised project of either source. */
  datatype Project = Project(source: Source, title: string, id: string, status: string)

  /** Which state a fetch is in; the code only ever compares it with `fetching`. */
  datatype FetchStatus = Fetching | Success | Failure

  predicate IsProtectGrts(item: GrtsItem) {
    item.wsProtectInd == Some("Y")
  }

  function FromGrts(item: GrtsItem): Project {
    Project(Grts, item.prjTitle, item.prjSeq, item.status)
  }

  predicate IsProtectionApproach(plan: Plan) {
    plan.actionTypeCode == "Protection Approach"
  }

  function FromAttains(plan: Plan): Project {
    Project(Attains, plan.actionName, plan.actionIdentifier, plan.actionStatusCode)
  }

  /** The GRTS normalisation: `filter` on the protection flag, then `map`. */
  function GrtsProjects(items: seq<GrtsItem>): (r: seq<Project>)
    ensures |r| <= |items|
    ensures forall p | p in r :: p.source == Grts
  {
    if |items| == 0 then []
    else
      (if IsProtectGrts(items[0]) then [FromGrts(items[0])] else []) + GrtsProjects(items[1..])
  }

  /** A GRTS project is listed exactly when some item flagged `Y` gives it. */
  lemma {:induction false} GrtsProjectsMembers(items: seq<GrtsItem>, p: Project)
    ensures p in GrtsProjects(items) <==> exists i | 0 <= i < |items| :: IsProtectGrts(items[i]) && p == FromGrts(items[i])
  {
    if |items| > 0 {
      GrtsProjectsMembers(items[1..], p);
      if p in GrtsProjects(items[1..]) {
        var i :| 0 <= i < |items[1..]| && IsProtectGrts(items[1..][i]) && p == FromGrts(items[1..][i]);
        assert items[i + 1] == items[1..][i];
      }
      if exists i | 0 <= i < |items| :: IsProtectGrts(items[i]) && p == FromGrts(items[i]) {
        var i :| 0 <= i < |items| && IsProtectGrts(items[i]) && p == FromGrts(items[i]);
        if i > 0 {
          assert items[1..][i - 1] == items[i];
        }
      }
    }
  }

  /** The ATTAINS normalisation as a list: plans of type
      `Protection Approach`, in order. */
  function AttainsProjects(plans: seq<Plan>): (r: seq<Project>)
    ensures |r| <= |plans|
    ensures forall p | p in r :: p.source == Attains
  {
    if |plans| == 0 then []
    else
      var rest := AttainsProjects(plans[..|plans| - 1]);
      var last := plans[|plans| - 1];
      if IsProtectionApproach(last) then rest + [FromAttains(last)] else rest
  }

  /** An ATTAINS project is listed exactly when some protection-approach
      plan gives it. */
  lemma {:induction false} AttainsProjectsMembers(plans: seq<Plan>, p: Project)
    ensures p in AttainsProjects(plans) <==> exists i | 0 <= i < |plans| :: IsProtectionApproach(plans[i]) && p == FromAttains(plans[i])
  {
    if |plans| > 0 {
      var init := plans[..|plans| - 1];
      AttainsProjectsMembers(init, p);
      if p in AttainsProjects(init) {
        var i :| 0 <= i < |init| && IsProtectionApproach(init[i]) && p == FromAttains(init[i]);
        assert plans[i] == init[i];
      }
      if exists i | 0 <= i < |plans| :: IsProtectionApproach(plans[i]) && p == FromAttains(plans[i]) {
        var i :| 0 <= i < |plans| && IsProtectionApproach(plans[i]) && p == FromAttains(plans[i]);
        if i < |init| {
          assert init[i] == plans[i];
        }
      }
    }
  }

  /** The `forEach` that pushes a project for every protection-approach plan. */
  method NormalizeAttains(plans: seq<Plan>) returns (attainsProjects: seq<Project>)
    ensures attainsProjects == AttainsProjects(plans)
  {
    attainsProjects := [];
    var i := 0;
    while i < |plans|
      invariant i <= |plans|
      invariant attainsProjects == AttainsProjects(plans[..i])
    {
      assert plans[..i + 1][..i] == plans[..i];
      if IsProtectionApproach(plans[i]) {
        attainsProjects := attainsProjects + [FromAttains(plans[i])];
      }
      i := i + 1;
    }
    assert plans[..i] == plans;
  }

  /** The GRTS effect: nothing is stored while fetching or when the response
      has no items, which keeps the previous list. */
  function GrtsUpdate(status: FetchStatus, items: seq<GrtsItem>): (r: Option<seq<Project>>)
    ensures r.None? <==> status == Fetching || |items| == 0
    ensures r.Some? ==> r.value == GrtsProjects(items)
  {
    if status == Fetching || |items| == 0 then None else Some(GrtsProjects(items))
  }

  /** The ATTAINS effect, guarded the same way. */
  method AttainsUpdate(status: FetchStatus, plans: seq<Plan>) returns (r: Option<seq<Project>>)
    ensures r.None? <==> status == Fetching || |plans| == 0
    ensures r.Some? ==> r.value == AttainsProjects(plans)
  {
    if status == Fetching {
      return None;
    }
    if |plans| == 0 {
      return None;
    }
    var projects := NormalizeAttains(plans);
    return Some(projects);
  }

  /** Orders projects by title under `le`, which stands for
      `a.localeCompare(b) <= 0`. */
  function TitleLe(le: (string, string) -> bool): (Project, Project) -> bool {
    (a: Project, b: Project) => le(a.title, b.title)
  }

  /** `allProtectionProjects`: GRTS then ATTAINS projects, stably sorted by
      title. */
  function AllProjects(grts: seq<Project>, attains: seq<Project>, le: (string, string) -> bool): (r: seq<Project>)
    ensures |r| == |grts| + |attains|
  {
    SortBy(grts + attains, TitleLe(le))
  }

  /** For a total title order the list is sorted by title and holds every
      project of both sources, each as often as given. */
  lemma AllProjectsSorted(grts: seq<Project>, attains: seq<Project>, le: (string, string) -> bool)
    requires Total(le)
    ensures SortedBy(AllProjects(grts, attains, le), TitleLe(le))
    ensures multiset(AllProjects(grts, attains, le)) == multiset(grts) + multiset(attains)
  {
    assert Total(TitleLe(le)) by {
      forall a: Project, b: Project ensures TitleLe(le)(a, b) || TitleLe(le)(b, a) {
        assert le(a.title, b.title) || le(b.title, a.title);
      }
    }
    SortByCorrect(grts + attains, TitleLe(le));
  }

  /** The sources whose toggle is on, ATTAINS first. */
  function DisplayedTypes(attainsDisplayed: bool, grtsDisplayed: bool): (ts: seq<Source>)
    ensures Attains in ts <==> attainsDisplayed
    ensures Grts in ts <==> grtsDisplayed
  {
    (if attainsDisplayed then [Attains] else []) + (if grtsDisplayed then [Grts] else [])
  }

  /** `filteredProtectionProjects`. */
  function FilteredProjects(all: seq<Project>, attainsDisplayed: bool, grtsDisplayed: bool): (r: seq<Project>)
    ensures |r| <= |all|
  {
    if |all| == 0 then []
    else
      (if all[0].source in DisplayedTypes(attainsDisplayed, grtsDisplayed) then [all[0]] else [])
      + FilteredProjects(all[1..], attainsDisplayed, grtsDisplayed)
  }

  /** A project is displayed exactly when it is listed and the toggle of its
      source is on; with both toggles on the list is kept whole, with both
      off it is empty. */
  lemma {:induction false} FilteredProjectsMembers(all: seq<Project>, attainsDisplayed: bool, grtsDisplayed: bool, p: Project)
    ensures p in FilteredProjects(all, attainsDisplayed, grtsDisplayed) <==>
      p in all && (if p.source == Attains then attainsDisplayed else grtsDisplayed)
    ensures attainsDisplayed && grtsDisplayed ==> FilteredProjects(all, attainsDisplayed, grtsDisplayed) == all
    ensures !attainsDisplayed && !grtsDisplayed ==> FilteredProjects(all, attainsDisplayed, grtsDisplayed) == []
  {
    if |all| > 0 {
      FilteredProjectsMembers(all[1..], attainsDisplayed, grtsDisplayed, p);
      assert all == [all[0]] + all[1..];
      assert all[0].source == Attains || all[0].source == Grts;
    }
  }
}
