# How's My Waterway — a verified model of the client logic

How's My Waterway is a public web application that shows the condition of
waterbodies on a map and in reports: assessment units and their impairments,
monitoring stations and their sample data, CyAN cyanobacteria (blue-green
algae) satellite data, protection projects, waterbodies of a state, endangered
species near a waterway, and user-uploaded data layers. This project models
the logic behind those views in Dafny and proves what that logic promises.

Every source file of the modelled core is one Dafny module (the monitoring
station page is split in three by concern), plus three small modules shared
by all of them:

- `Wrappers` — `Option`, `Result` and the three kinds of error the
  JavaScript can raise here (`TypeError` for a property read on
  `undefined`/`null`, `InvalidAction` for a reducer given an action it does
  not know, `LibraryError` for a library call refusing its input or a
  request that is rejected).
- `JsObjects` — a JavaScript object as an insertion-ordered map, which gives
  `Object.keys` and `Object.values` their order.
- `JsStrings` — the string operations the code uses with their JavaScript
  meaning: `indexOf`, `replace` with a string pattern (first occurrence,
  with the `$` substitution patterns), `replaceAll`, `split`/`join`, `trim`,
  number formatting and `parseInt`, the code-point string order (see Left out),
  and `Array.prototype.sort` as a stable insertion sort.

Modules and the files they model:

| module | models |
|---|---|
| `BoundariesToggleLayer` | `app/client/src/utils/hooks/boundariesToggleLayer.ts` — the HUC/bounding-box refresh choice and the boundaries mask toggle |
| `CyanWaterbodies` | `app/client/src/utils/hooks/cyanWaterbodies.ts` — fetching, transforming and de-duplicating CyAN waterbody records |
| `StationCheckboxes` | `app/client/src/components/pages/MonitoringStation.js` — the tri-state checkbox tree of groups, types and characteristics, as specification functions |
| `StationReducer` | the same file — the checkbox reducer as imperative code over the tree |
| `StationParsing`, `StationFilters` | the same file — parsing of station characteristics and the download filter built from the checkboxes |
| `WaterbodyInfo` | `app/client/src/components/shared/WaterbodyInfo.tsx` — CyAN cell counts, unique measurement summaries and the monitoring-location filter panel |
| `Protect` | `app/client/src/components/pages/Community/components/tabs/Protect.js` — state-code names, visible layers and the protection project lists |
| `FilePanel` | `app/client/src/components/shared/AddDataWidget/FilePanel.js` — upload file typing, the analyze/generate steps and layer naming |
| `LookupFiles` | `app/client/src/contexts/LookupFiles.js` — lookup-file and service-URL loading and the analytics origin substitution |
| `WaterbodyList` | `app/client/src/components/pages/State/components/WaterbodyList.js` — the sorted waterbody list with expandable rows |
| `LocationSearch` | `app/client/src/components/shared/LocationSearch/index.js` — the search box and "Use My Location" |
| `Endangered` | `app/server/app/public/endangered/main.js` — attaching IPaC species counts to OpenStreetMap ways |

Pure code (expressions, recursion, array methods) is modelled as datatypes,
functions and lemmas. React state and component effects are modelled as
classes whose fields are the state variables and whose methods are the event
handlers and effects, each `ensures` stating the whole new state. Loops of the
source are `while` loops with their invariants, proved against specification
functions whose properties are lemmas.

A failed CyAN fetch sends its status to the reducer and leaves the HUC data
`null`; it neither returns empty records nor keeps the earlier ones
(`CyanWaterbodies.CyanData.FetchAndTransformData`, `CyanWaterbodies.CyanData.UpdateHucData`).

Where a source comment and the code disagree, the model follows the code:

- The comment above `getLayerName` says a second copy of a name gets ` (2)`;
  the code gives ` (1)` first, and so does the model (`FilePanel.FirstDuplicate`).

## Model

| member | source | states |
|---|---|---|
| BoundariesToggleLayer.RefreshFilter | app/client/src/utils/hooks/boundariesToggleLayer.ts:179-188 | the stationary refresh is `huc` exactly when the scale is at least 577791 or the layer's visibility entry is exactly `false`, otherwise `bBox` |
| BoundariesToggleLayer.RefreshFilterMonotone | app/client/src/utils/hooks/boundariesToggleLayer.ts:182-187 | zooming out never turns a `huc` refresh into `bBox`; below the threshold a missing or `true` visibility entry gives `bBox` |
| BoundariesToggleLayer.ToggledOpacity | app/client/src/utils/hooks/boundariesToggleLayer.ts:240-245 | the new opacity is 0 or 0.8, and the mask is shown afterwards exactly when it was not shown before (only exactly 0.8 counts as shown) |
| BoundariesToggleLayer.ToggleTwice | app/client/src/utils/hooks/boundariesToggleLayer.ts:240-245 | two toggles restore an opacity of 0 or 0.8; any other opacity ends hidden |
| BoundariesToggleLayer.Remove | app/client/src/utils/hooks/boundariesToggleLayer.ts:370-377 | the layer's features after the deletions are exactly those not deleted, each as many times as before |
| BoundariesToggleLayer.RemoveConcat | app/client/src/utils/hooks/boundariesToggleLayer.ts:370-377 | deleting from two stretches of features gives the kept features of each, one after the other, so they stay in their old order |
| BoundariesToggleLayer.RemoveOne | app/client/src/utils/hooks/boundariesToggleLayer.ts:370-377 | a single feature is kept exactly when it is not among the deletions |
| BoundariesToggleLayer.RemoveEverything | app/client/src/utils/hooks/boundariesToggleLayer.ts:370-375 | deleting every feature the layer holds (the queried feature set) leaves it empty |
| BoundariesToggleLayer.FeatureLayer.constructor | app/client/src/utils/hooks/boundariesToggleLayer.ts:364-366 | a layer holds the features it was given |
| BoundariesToggleLayer.FeatureLayer.QueryFeatures | app/client/src/utils/hooks/boundariesToggleLayer.ts:370 | the query returns every feature the layer holds |
| BoundariesToggleLayer.FeatureLayer.ApplyEdits | app/client/src/utils/hooks/boundariesToggleLayer.ts:371-377 | the edits apply the deletions, then append the additions |
| BoundariesToggleLayer.UpdateFeatureLayer | app/client/src/utils/hooks/boundariesToggleLayer.ts:364-378 | a null layer is left alone; otherwise the layer ends holding exactly the supplied features, none when they are omitted |
| BoundariesToggleLayer.ToggleLayer.constructor | app/client/src/utils/hooks/boundariesToggleLayer.ts:121-127 | the surrounding mask starts at opacity 0, that is hidden, and nothing has been dispatched or registered |
| BoundariesToggleLayer.ToggleLayer.ToggleSurroundings | app/client/src/utils/hooks/boundariesToggleLayer.ts:240-251 | the opacity flips between 0.8 and 0, and the dispatched visibility is the negation of the old shown state, equal to the new one |
| BoundariesToggleLayer.ToggleLayer.ResetLayer | app/client/src/utils/hooks/boundariesToggleLayer.ts:209-220 | without a base layer nothing changes; otherwise the mask is hidden and `false` dispatched only when `resetHidesSurroundings` is set, and the base layer is emptied |
| BoundariesToggleLayer.ToggleLayer.RegisterUpdates | app/client/src/utils/hooks/boundariesToggleLayer.ts:171-192 | an existing handle makes the effect a no-op; otherwise the watcher is registered, fires at once when the view is stationary, and one `huc` update is requested while the view is not ready |
| BoundariesToggleLayer.ToggleLayer.OnStationary | app/client/src/utils/hooks/boundariesToggleLayer.ts:179-188 | a registered watcher appends the refresh `RefreshFilter` picks; nothing else changes |
| BoundariesToggleLayer.ToggleLayer.Cleanup | app/client/src/utils/hooks/boundariesToggleLayer.ts:194-196 | the cleanup removes the handle group, after which the watcher fires no more |
| BoundariesToggleLayer.LocalSelection | app/client/src/utils/hooks/boundariesToggleLayer.ts:58-68 | a feature is local exactly when there is a HUC polygon and the feature intersects it |
| BoundariesToggleLayer.FeatureSets.constructor | app/client/src/utils/hooks/boundariesToggleLayer.ts:84-85 | both feature lists start empty and both dirty flags set (the local ones at lines 46-47) |
| BoundariesToggleLayer.FeatureSets.UpdateAllFeatures | app/client/src/utils/hooks/boundariesToggleLayer.ts:88-95 | the complete set is dirty afterwards exactly when `transformData` gave null, in which case its features are kept; otherwise they are the built features |
| BoundariesToggleLayer.FeatureSets.Huc12Changed | app/client/src/utils/hooks/boundariesToggleLayer.ts:50-53 | an empty `huc12` marks the local features dirty; a non-empty one changes nothing |
| BoundariesToggleLayer.FeatureSets.UpdateLocalFeatures | app/client/src/utils/hooks/boundariesToggleLayer.ts:56-70 | the local features are recomputed, and marked clean, exactly when they were dirty and the complete set is clean; otherwise nothing changes |
| BoundariesToggleLayer.SurroundingsShown | app/client/src/utils/hooks/boundariesToggleLayer.ts:242 | reference definition: surrounding features count as shown only at exactly the visible opacity 0.8 |
| BoundariesToggleLayer.Additions | app/client/src/utils/hooks/boundariesToggleLayer.ts:377 | reference definition: the features `updateFeatureLayer` adds, none when the list is omitted or null |
| CyanWaterbodies.TransformServiceData | app/client/src/utils/hooks/cyanWaterbodies.ts:298-311 | one record per feature, in order, with `oid` the feature's `OBJECTID`, `locationName` and `GNIS_NAME` its GNIS name, its `FID`, area and geometry, `monitoringType` `CyAN` and the CyAN organization name |
| CyanWaterbodies.BuildFeatures | app/client/src/utils/hooks/cyanWaterbodies.ts:149-156 | one map feature per record, in order, carrying the record's geometry and object id |
| CyanWaterbodies.FilterData | app/client/src/utils/hooks/cyanWaterbodies.ts:258-260 | the surrounding records kept are exactly those whose `FID` (the only data key, line 330) no HUC record has |
| CyanWaterbodies.FilterDataProperties | app/client/src/utils/hooks/cyanWaterbodies.ts:136 | filtering against the initial empty HUC list keeps everything, and no kept surrounding record shares an `FID` with a HUC record |
| CyanWaterbodies.FilterDataConcat | app/client/src/utils/hooks/cyanWaterbodies.ts:258-260 | filtering two stretches of records gives the kept records of each, one after the other, so the kept records stay in their original order |
| CyanWaterbodies.FetchResult | app/client/src/utils/hooks/cyanWaterbodies.ts:255-271 | the fetch resolves to null exactly when the response is not a success; otherwise to the transformed records, or, when an exclusion list is given, to exactly the `FilterData` of them: every record whose `FID` is not excluded, in order |
| CyanWaterbodies.SettledAction | app/client/src/utils/hooks/cyanWaterbodies.ts:262-269 | the settled action is `success` with the returned payload exactly when the response succeeded, otherwise an action whose type is the response's status |
| CyanWaterbodies.CyanData.constructor | app/client/src/utils/hooks/cyanWaterbodies.ts:83 | the HUC data starts as an empty list and no extent has been fetched for |
| CyanWaterbodies.CyanData.FetchAndTransformData | app/client/src/utils/hooks/cyanWaterbodies.ts:246-272 | dispatches `pending` and then the settled action, in that order, and returns `FetchResult` |
| CyanWaterbodies.CyanData.UpdateHucData | app/client/src/utils/hooks/cyanWaterbodies.ts:84-114 | without HUC boundary features the HUC data becomes an empty success; while services are not loaded nothing happens; otherwise the HUC data is the fetch's result |
| CyanWaterbodies.CyanData.UpdateSurroundingData | app/client/src/utils/hooks/cyanWaterbodies.ts:118-140 | no services, no view or an extent identical to the last one do nothing; otherwise the extent is recorded before one fetch that excludes the HUC data |
| CyanWaterbodies.CyanData.UpdateSurroundingTwice | app/client/src/utils/hooks/cyanWaterbodies.ts:124-126 | two surrounding updates for the same extent fetch at most once |
| CyanWaterbodies.TransformFeature | app/client/src/utils/hooks/cyanWaterbodies.ts:298-311 | reference definition: one service feature's record: its area, `FID`, GNIS name (as the location name and the name), geometry and `OBJECTID` (as `oid`), with the CyAN monitoring type and organization name |
| CyanWaterbodies.Excluded | app/client/src/utils/hooks/cyanWaterbodies.ts:258-260 | reference definition: some excluded record has this `FID`, the only data key compared (line 330) |
| StationCheckboxes.Aggregate | app/client/src/components/pages/MonitoringStation.js:807-818 | the parent state is 0, 1 or 2; as written it is 0 exactly when the children's states sum to 0 and 1 exactly when the nonzero sum equals the child count; under the intended rule 0 or 1 exactly when every child is 0 or 1 |
| StationCheckboxes.RulesAgreeOnBinary | app/client/src/components/pages/MonitoringStation.js:807-818 | while no child is indeterminate, summing states and looking at child states give the same parent |
| StationCheckboxes.RulesDisagree | app/client/src/components/pages/MonitoringStation.js:812-813 | an indeterminate and an unchecked child make a checked parent as written, an indeterminate one under the intended rule |
| StationCheckboxes.AggregateUniform | app/client/src/components/pages/MonitoringStation.js:812-813 | children all checked, or all unchecked, give the parent that state under either rule |
| StationCheckboxes.SetSelected | app/client/src/components/pages/MonitoringStation.js:789-794 | only the entry `id` changes, and only its state; the key order is kept |
| StationCheckboxes.UpdateParentSpec | app/client/src/components/pages/MonitoringStation.js:807-818 | only the parent changes, to the state its own children's states aggregate to |
| StationCheckboxes.Descendants | app/client/src/components/pages/MonitoringStation.js:796-805 | exactly the entries whose group (or type) is `id` take the new state; the others and the keys are unchanged |
| StationCheckboxes.Next | app/client/src/components/pages/MonitoringStation.js:708 | a toggled box becomes checked exactly when it was unchecked, otherwise unchecked |
| StationCheckboxes.SetAll | app/client/src/components/pages/MonitoringStation.js:758-780 | every entry takes the new state, and nothing else changes |
| StationCheckboxes.Reduce | app/client/src/components/pages/MonitoringStation.js:358-385 | the reducer fails with `InvalidAction` exactly on an unknown action type; a toggle of an absent id fails with `TypeError` |
| StationCheckboxes.InitialWf | app/client/src/components/pages/MonitoringStation.js:568-573 | the initial empty state is well formed and consistent |
| StationCheckboxes.CharacteristicToggleResult | app/client/src/components/pages/MonitoringStation.js:715-721 | a characteristic toggle flips that characteristic, derives its type from the type's characteristics and its group from the group's types, and succeeds |
| StationCheckboxes.ToggleCharacteristicKeeps | app/client/src/components/pages/MonitoringStation.js:707-756 | toggling a present characteristic never throws and keeps a well-formed state in which every type, group and `all` shows what the rule derives from its children |
| StationCheckboxes.GroupToggleResult | app/client/src/components/pages/MonitoringStation.js:723-728 | a group toggle sets exactly the types and characteristics whose `group` is the id to the group's new state |
| StationCheckboxes.ToggleGroupKeeps | app/client/src/components/pages/MonitoringStation.js:707-756 | toggling a present group never throws and keeps the state well formed and consistent |
| StationCheckboxes.TypeToggleResult | app/client/src/components/pages/MonitoringStation.js:730-736 | a type toggle sets the type and exactly the characteristics whose `type` is the id, and derives the type's group |
| StationCheckboxes.TypeToggleSelf | app/client/src/components/pages/MonitoringStation.js:730-733 | the toggled type's state is what its characteristics, which all take it, aggregate to |
| StationCheckboxes.ToggleTypeKeeps | app/client/src/components/pages/MonitoringStation.js:707-756 | toggling a present type never throws and keeps the state well formed and consistent |
| StationCheckboxes.ToggleAllKeeps | app/client/src/components/pages/MonitoringStation.js:758-787 | after `toggleAll` every characteristic shows `all`, which is checked exactly when it was unchecked, and the state is well formed and consistent under either rule |
| StationCheckboxes.LoadKeeps | app/client/src/components/pages/MonitoringStation.js:593-630 | loading data of the shape `parseCharcs` builds gives a well-formed consistent state in which every known characteristic keeps its state and every new one is checked |
| StationCheckboxes.ReduceKeeps | app/client/src/components/pages/MonitoringStation.js:358-385 | every reducer action keeps a well-formed consistent state so; a toggle of a present entry never throws; only an unknown action type fails |
| StationCheckboxes.LevelAllEq | app/client/src/components/pages/MonitoringStation.js:807-818 | under the intended rule every parent of a consistent level shows 0 (or 1) exactly when every child does |
| StationCheckboxes.AllMeansEveryCharacteristic | app/client/src/components/pages/MonitoringStation.js:742-748 | under the intended rule `all` is checked exactly when every characteristic is, and unchecked exactly when none is |
| StationCheckboxes.ExampleWf | app/client/src/components/pages/MonitoringStation.js:593-630 | the two-group example is well formed and consistent under both rules |
| StationCheckboxes.ExampleUntickC2 | app/client/src/components/pages/MonitoringStation.js:715-721 | unticking c2 of the example leaves its type and group indeterminate, and `all` too |
| StationCheckboxes.ExampleUntickC3 | app/client/src/components/pages/MonitoringStation.js:715-721 | unticking c3 next leaves the groups at states [2, 0] |
| StationCheckboxes.AsWrittenAllCheckedAfterUnticking | app/client/src/components/pages/MonitoringStation.js:742-748 | as written, unticking c2 and then c3 makes `all` checked although both are unchecked |
| StationCheckboxes.IntendedAllIndeterminateAfterUnticking | app/client/src/components/pages/MonitoringStation.js:742-748 | under the intended rule the same two clicks leave `all` indeterminate |
| StationCheckboxes.InitialCheckboxes | app/client/src/components/pages/MonitoringStation.js:568-573 | reference definition: `all` unchecked and no groups, types or characteristics |
| StationCheckboxes.Toggle | app/client/src/components/pages/MonitoringStation.js:707-756 | reference definition of `toggle`: the box flips (0 to 1, any other state to 0); a group or type pushes its new state to its descendants, a characteristic or type has its parents derived from their children, and `all` is derived from the groups; a read of an absent entry is a `TypeError` |
| StationCheckboxes.ToggleAll | app/client/src/components/pages/MonitoringStation.js:758-787 | reference definition of `toggleAll`: every box and `all` take the state 1 when `all` was 0, and 0 otherwise |
| StationCheckboxes.Load | app/client/src/components/pages/MonitoringStation.js:593-630 | reference definition of `loadNewData`: each new characteristic keeps its earlier state when it was known and is checked otherwise; types, groups and `all` are derived from them by the rule |
| StationCheckboxes.KeptSelection | app/client/src/components/pages/MonitoringStation.js:602-605 | reference definition: a characteristic already in the state keeps its selection, a new one is checked |
| StationCheckboxes.Sum | app/client/src/components/pages/MonitoringStation.js:807-818 | reference definition: the sum of the children's states that `updateParent` compares with the child count |
| StationCheckboxes.Sel | app/client/src/components/pages/MonitoringStation.js:809-811 | reference definition: the state of an entry, read by id |
| StationCheckboxes.States | app/client/src/components/pages/MonitoringStation.js:809-811 | reference definition: the states of the listed children, in order |
| StationCheckboxes.AllOf | app/client/src/components/pages/MonitoringStation.js:838-843 | reference definition: the `all` box aggregated from the groups' states |
| StationReducer.SumStatesPermutation | app/client/src/components/pages/MonitoringStation.js:809-811 | the sum of the states of distinct children does not depend on the order they are visited in |
| StationReducer.ChildrenInKeyOrder | app/client/src/components/pages/MonitoringStation.js:797-798 | the children visited in key order through their `group` or `type` field are exactly the parent's members, so their states add up the same |
| StationReducer.SumSelected | app/client/src/components/pages/MonitoringStation.js:808-811 | the loop's sum is the sum of the children's states, and it fails exactly when a child is absent |
| StationReducer.UpdateParent | app/client/src/components/pages/MonitoringStation.js:807-818 | the parent takes the state its children's summed states aggregate to; an absent child fails |
| StationReducer.UpdateDescendants | app/client/src/components/pages/MonitoringStation.js:796-805 | the loop computes `Descendants`: exactly the entries whose group (or type) is the id take the new state |
| StationReducer.AllSelected | app/client/src/components/pages/MonitoringStation.js:742-748 | `all` is the sum of the group states against the number of groups |
| StationReducer.Toggle | app/client/src/components/pages/MonitoringStation.js:707-756 | the method computes `toggle` as specified by `StationCheckboxes.Toggle` under the summing rule |
| StationReducer.CopyWith | app/client/src/components/pages/MonitoringStation.js:761-780 | a fresh dictionary with a transformed copy of every entry under its own id, in the original order |
| StationReducer.ToggleAll | app/client/src/components/pages/MonitoringStation.js:758-787 | the method computes `StationCheckboxes.ToggleAll` |
| StationReducer.AddCharcStates | app/client/src/components/pages/MonitoringStation.js:824-826 | after the first loop every type holds its starting state plus the states of its characteristics |
| StationReducer.FromSumIsAggregate | app/client/src/components/pages/MonitoringStation.js:828-829 | the three-way choice on a summed state is the summing rule |
| StationReducer.SettleTypes | app/client/src/components/pages/MonitoringStation.js:827-831 | the second loop settles every type into its derived state and adds that to its group |
| StationReducer.SettleGroups | app/client/src/components/pages/MonitoringStation.js:832-836 | the third loop settles every group into its derived state and totals the group states |
| StationReducer.TypesHoldSums | app/client/src/components/pages/MonitoringStation.js:824-826 | after the first loop, with types starting at 0, every type holds the sum of its characteristics' states |
| StationReducer.GroupsHoldSums | app/client/src/components/pages/MonitoringStation.js:827-831 | after the second loop every group holds the sum of its types' settled states |
| StationReducer.UpdateSelected | app/client/src/components/pages/MonitoringStation.js:820-846 | types and groups take the states derived from their members, and the result is the `all` state from the groups |
| StationReducer.LoadIsDerived | app/client/src/components/pages/MonitoringStation.js:593-630 | the fresh entries `loadNewData` builds and hands to `updateSelected` give exactly the state `Load` describes |
| StationReducer.LoadNewData | app/client/src/components/pages/MonitoringStation.js:593-630 | the method computes `StationCheckboxes.Load` under the summing rule |
| StationReducer.CheckboxReducer | app/client/src/components/pages/MonitoringStation.js:358-385 | the method computes `StationCheckboxes.Reduce`, throwing on an unknown action type |
| StationReducer.FromSum | app/client/src/components/pages/MonitoringStation.js:828-829 | reference definition: 0 for a zero sum, 1 for a sum equal to the child count, 2 otherwise (FromSumIsAggregate) |
| StationReducer.Settle | app/client/src/components/pages/MonitoringStation.js:828-829 | reference definition: a checkbox whose summed state is turned into a state |
| StationReducer.SumWhere | app/client/src/components/pages/MonitoringStation.js:824-831 | reference definition: the sum of the states of the entries that belong to one parent |
| StationReducer.SettleType | app/client/src/components/pages/MonitoringStation.js:827-831 | one turn of the second loop: the type's sum becomes its state, that state is added to its group's sum, and the loop invariant moves on by one type |
| StationReducer.SettleGroup | app/client/src/components/pages/MonitoringStation.js:832-836 | one turn of the third loop: the group's sum becomes its state and the running total becomes the sum of the settled groups' states so far |
| StationParsing.GetCharcGroup | app/client/src/components/pages/MonitoringStation.js:467-472 | the label of the first mapping that lists the type, `Other` when none does |
| StationParsing.TypeAmong | app/client/src/components/pages/MonitoringStation.js:475-477 | the first key whose list names the characteristic, none exactly when no list does |
| StationParsing.GetCharcType | app/client/src/components/pages/MonitoringStation.js:474-479 | the first type in key order whose list names the characteristic, `Not Assigned` when none does |
| StationParsing.OnlyFirst | app/client/src/components/pages/MonitoringStation.js:475-477 | at most one key is the first whose list names the characteristic, so the lookup is well defined |
| StationParsing.IsEmpty | app/client/src/components/pages/MonitoringStation.js:575-580 | true exactly when the object has no own key |
| StationParsing.Active | app/client/src/components/pages/MonitoringStation.js:543-544 | the mappings kept are exactly those not labelled `All` |
| StationParsing.ListsActive | app/client/src/components/pages/MonitoringStation.js:543-547 | a mapping left after dropping `All` lists a type under a label exactly when that label is not `All` and some mapping of it lists the type |
| StationParsing.Push | app/client/src/components/pages/MonitoringStation.js:548-549 | the label's list gains the type at its end, being created empty first when missing; other labels are unchanged |
| StationParsing.FileMapping | app/client/src/components/pages/MonitoringStation.js:545-551 | after one mapping every type name it lists is under its label, and each name is under a label exactly when a mapping seen so far lists it there |
| StationParsing.Flatten | app/client/src/components/pages/MonitoringStation.js:555-558 | the flattened list holds exactly the names listed under some label |
| StationParsing.FileLeftovers | app/client/src/components/pages/MonitoringStation.js:559-564 | the names not yet listed, and only they, are added under `Other`; the other labels are unchanged |
| StationParsing.GroupTypes | app/client/src/components/pages/MonitoringStation.js:541-566 | only the station's type names are listed; a name is under a label other than `Other` exactly when a mapping of that label lists it, and under `Other` exactly when an `Other` mapping lists it or none does |
| StationParsing.EveryTypeGrouped | app/client/src/components/pages/MonitoringStation.js:559-564 | `groupTypes` loses no type: each is listed under some label |
| StationParsing.CharcGroupListsType | app/client/src/components/pages/MonitoringStation.js:866 | the group a characteristic is shown under lists its type in the station's grouping, when no `All` mapping lists the type |
| StationParsing.GroupTotalMeaning | app/client/src/components/pages/MonitoringStation.js:638-640 | a group whose types all have counts totals their counts; a missing type count, or a group that is not a label of the mappings, makes the total `NaN` |
| StationParsing.ParseGroupCounts | app/client/src/components/pages/MonitoringStation.js:632-644 | every mapping label bar `All` counts from 0, every group with types totals their counts added in turn, and there are no other keys |
| StationParsing.AddTypeCounts | app/client/src/components/pages/MonitoringStation.js:638-640 | the inner loop adds each type's count to the group's entry and changes no other entry |
| StationParsing.AddMember | app/client/src/components/pages/MonitoringStation.js:683-684 | adding to a set kept as an insertion-ordered list appends only a value not yet present |
| StationParsing.AddCharc | app/client/src/components/pages/MonitoringStation.js:658-685 | one kept characteristic creates its group and type when missing, adds its count to both and files it |
| StationParsing.AddedParsed | app/client/src/components/pages/MonitoringStation.js:653-686 | each loop step keeps the picture `Parsed`: the kept characteristics with their data, every type and group counting the sum of its members |
| StationParsing.ParseCharcs | app/client/src/components/pages/MonitoringStation.js:646-688 | exactly the characteristics with a positive count in the range are kept, filed under their types and groups, each counting the sum of its members, nothing selected |
| StationParsing.ParsedLoads | app/client/src/components/pages/MonitoringStation.js:593-630 | what `parseCharcs` builds, once loaded, is a well-formed consistent state holding exactly the characteristics with records in the range |
| StationParsing.Start | app/client/src/components/pages/MonitoringStation.js:634-636 | reference definition: a group's count starts at 0 for a label of the mappings other than `All`, `undefined` otherwise |
| StationParsing.Read | app/client/src/components/pages/MonitoringStation.js:639 | reference definition: `typeCounts[t]` as a number, `undefined` when missing |
| StationParsing.Plus | app/client/src/components/pages/MonitoringStation.js:639 | reference definition: `+=` on numbers, `NaN` once either side is not a number |
| StationParsing.GroupTotal | app/client/src/components/pages/MonitoringStation.js:638-640 | reference definition: a group's start with the count of each of its types added in turn |
| StationParsing.NewGroup | app/client/src/components/pages/MonitoringStation.js:660-664 | reference definition: a new group entry with count 0 and no types |
| StationParsing.NewType | app/client/src/components/pages/MonitoringStation.js:667-672 | reference definition: a new type entry of its group with count 0 and no characteristics |
| StationParsing.AddToEntry | app/client/src/components/pages/MonitoringStation.js:659-684 | the entry is created when missing, its count increased by the characteristic's count and the member listed once |
| StationFilters.BuildDateFilter | app/client/src/components/pages/MonitoringStation.js:328-338 | no filter exactly without a range; the filter is empty exactly when the range is the station's first to last year |
| StationFilters.NumberAfterOf | app/client/src/components/pages/MonitoringStation.js:332 | a parameter followed by text that does not start with a digit reads back as its number and that text |
| StationFilters.DateFilterRoundTrip | app/client/src/components/pages/MonitoringStation.js:328-338 | the date filter of a range reads back as that range, so distinct ranges ask for distinct dates |
| StationFilters.RenderSnoc | app/client/src/components/pages/MonitoringStation.js:345 | appending one parameter appends its text to the filter |
| StationFilters.AppendCheckedNames | app/client/src/components/pages/MonitoringStation.js:347-352 | the inner loop appends a `characteristicName` parameter for each checked characteristic, in order |
| StationFilters.AppendTypeParams | app/client/src/components/pages/MonitoringStation.js:344-353 | a checked type appends its `characteristicType` parameter, an indeterminate one the names of its checked characteristics, an unchecked one nothing |
| StationFilters.BuildCharcsFilter | app/client/src/components/pages/MonitoringStation.js:340-356 | the filter renders the parameters `CharcsParams` gives, and is empty when `all` is unchecked or checked |
| StationFilters.CheckedNamesMembers | app/client/src/components/pages/MonitoringStation.js:347-352 | a name parameter is emitted exactly for a checked characteristic, and no type parameter |
| StationFilters.ParamsOfMembers | app/client/src/components/pages/MonitoringStation.js:343-354 | a type parameter is emitted exactly for a checked type, a name parameter exactly for a checked characteristic of an indeterminate type |
| StationFilters.ParamsAskForChecked | app/client/src/components/pages/MonitoringStation.js:340-356 | with `all` indeterminate and consistent types, the parameters ask for a characteristic, by name or by type, exactly when it is checked |
| StationFilters.DownloadIsSelection | app/client/src/components/pages/MonitoringStation.js:340-356 | under the intended rule, with `all` not unchecked, the download includes exactly the checked characteristics |
| StationFilters.AsWrittenDownloadsUnchecked | app/client/src/components/pages/MonitoringStation.js:342 | as written, the example's two clicks make `all` checked, so the filter is empty and downloads the unchecked c2 |
| StationFilters.GetTotalCount | app/client/src/components/pages/MonitoringStation.js:520-526 | the total is the sum of the counts of the checked characteristics |
| StationFilters.CheckedCountSetAll | app/client/src/components/pages/MonitoringStation.js:520-526 | after `toggleAll` the total is every count or none |
| StationFilters.CheckedCountToggle | app/client/src/components/pages/MonitoringStation.js:520-526 | toggling one characteristic changes the total by its count, up or down |
| StationFilters.CountInRange | app/client/src/components/pages/MonitoringStation.js:484-488 | the records counted in a range are at most all of them |
| StationFilters.GetFilteredCount | app/client/src/components/pages/MonitoringStation.js:481-492 | with a range the count of records whose year lies in it, inclusive, otherwise the given count |
| StationFilters.CountInRangeMonotone | app/client/src/components/pages/MonitoringStation.js:485 | a wider range never counts fewer records, and a range holding every year counts them all |
| StationFilters.ReadDateFilter | app/client/src/components/pages/MonitoringStation.js:328-338 | the years a date filter asks for, read back from its text; the partner of `BuildDateFilter` in `DateFilterRoundTrip` |
| StationFilters.Render | app/client/src/components/pages/MonitoringStation.js:345-352 | reference definition: the filter text is each parameter, in order, as `&characteristicType=<id>` or `&characteristicName=<id>` |
| StationFilters.ParamsOf | app/client/src/components/pages/MonitoringStation.js:343-354 | reference definition: per type in key order, its `characteristicType` parameter when checked, the `characteristicName` parameters of its checked characteristics when indeterminate, nothing when unchecked |
| StationFilters.CharcsParams | app/client/src/components/pages/MonitoringStation.js:340-356 | reference definition: no parameters when `all` is 0 or 1, otherwise the types' parameters in key order |
| StationFilters.LowerPart | app/client/src/components/pages/MonitoringStation.js:331-332 | reference definition: `&startDateLo=01-01-` and the year when the lower bound is not the first year, nothing otherwise |
| StationFilters.UpperPart | app/client/src/components/pages/MonitoringStation.js:334-335 | reference definition: `&startDateHi=12-31-` and the year when the upper bound is not the last year, nothing otherwise |
| StationFilters.Text | app/client/src/components/pages/MonitoringStation.js:345-350 | reference definition: the text of a type or name parameter |
| StationFilters.CheckedNames | app/client/src/components/pages/MonitoringStation.js:347-352 | reference definition: a name parameter for each checked characteristic, in order |
| StationFilters.TypeParams | app/client/src/components/pages/MonitoringStation.js:344-353 | reference definition: a checked type asked for by type, an indeterminate one by its checked characteristics' names, an unchecked one not at all |
| StationFilters.CheckedCount | app/client/src/components/pages/MonitoringStation.js:520-526 | reference definition: the sum of the counts of the checked characteristics, in order |
| WaterbodyInfo.Bool | app/client/src/components/shared/WaterbodyInfo.tsx:63-66 | the text is `Yes` or `No` |
| WaterbodyInfo.BoolOfNumber | app/client/src/components/shared/WaterbodyInfo.tsx:63-66 | a number's decimal text, with or without a sign or a non-numeric trailer, reads `Yes` exactly when the number is not zero |
| WaterbodyInfo.BoolWithoutDigits | app/client/src/components/shared/WaterbodyInfo.tsx:63-66 | the empty string, and any text without a digit, reads `No` |
| WaterbodyInfo.FirstPositive | app/client/src/components/shared/WaterbodyInfo.tsx:1149 | the first index with a positive count, none exactly when no count is positive |
| WaterbodyInfo.LastPositive | app/client/src/components/shared/WaterbodyInfo.tsx:1155-1157 | the last index with a positive count, none exactly when no count is positive |
| WaterbodyInfo.GetMinCellConcentration | app/client/src/components/shared/WaterbodyInfo.tsx:1147-1151 | null exactly when the counts are empty or none is positive; otherwise the metadata of the first positive count |
| WaterbodyInfo.GetMaxCellConcentration | app/client/src/components/shared/WaterbodyInfo.tsx:1153-1159 | the reverse loop returns the metadata of the last positive count, null exactly when there is none |
| WaterbodyInfo.MinNotAfterMax | app/client/src/components/shared/WaterbodyInfo.tsx:1147-1159 | there is a minimum exactly when there is a maximum, and the minimum's index is at most the maximum's |
| WaterbodyInfo.TrimCellCounts | app/client/src/components/shared/WaterbodyInfo.tsx:1266-1269 | only responses of exactly 256 values are kept, trimmed to the 253 values at indices 1 to 253 |
| WaterbodyInfo.EmptyDays | app/client/src/components/shared/WaterbodyInfo.tsx:1260-1264 | every day of the week starts with an empty list |
| WaterbodyInfo.Stored | app/client/src/components/shared/WaterbodyInfo.tsx:1265-1270 | every day of the week is kept; a day holds its empty list or the trimmed counts of a 256-value entry dated that day |
| WaterbodyInfo.CellConcentrationData | app/client/src/components/shared/WaterbodyInfo.tsx:1259-1270 | the effect's data is the empty week with the response entries stored over it |
| WaterbodyInfo.EmptyWeek | app/client/src/components/shared/WaterbodyInfo.tsx:1260-1264 | the `while` loop puts an empty list under each of the seven days up to today |
| WaterbodyInfo.StoreEntries | app/client/src/components/shared/WaterbodyInfo.tsx:1265-1270 | the `forEach` stores each 256-value entry with a readable date, trimmed, under its day |
| WaterbodyInfo.StoredCountsTrimmed | app/client/src/components/shared/WaterbodyInfo.tsx:1266-1269 | every day holds either nothing or exactly 253 counts |
| WaterbodyInfo.FindCode | app/client/src/components/shared/WaterbodyInfo.tsx:2072-2074 | the index of a listed measurement with the code, none exactly when no listed one has it |
| WaterbodyInfo.MeasurementList.constructor | app/client/src/components/shared/WaterbodyInfo.tsx:2083-2084 | a measurement list starts empty |
| WaterbodyInfo.MeasurementList.AddUniqueMeasurement | app/client/src/components/shared/WaterbodyInfo.tsx:2068-2081 | a measurement whose code is listed marks the listed entry `multiple`; any other is appended as a copy |
| WaterbodyInfo.CollectMeasurements | app/client/src/components/shared/WaterbodyInfo.tsx:2086-2092 | the `forEach` leaves the list one call per measurement, in order, produces |
| WaterbodyInfo.Occurrences | app/client/src/components/shared/WaterbodyInfo.tsx:2072-2074 | a code occurs exactly when some measurement carries it |
| WaterbodyInfo.FirstWith | app/client/src/components/shared/WaterbodyInfo.tsx:2072-2074 | the first measurement with the code exists exactly when the code occurs |
| WaterbodyInfo.SummarisesStep | app/client/src/components/shared/WaterbodyInfo.tsx:2068-2081 | one more measurement keeps the list a summary: one entry per code, each the code's first measurement |
| WaterbodyInfo.UniqueMeasurementsSummarise | app/client/src/components/shared/WaterbodyInfo.tsx:2068-2092 | no code is listed twice, every code that arrived is listed, and each entry is the first measurement with its code, marked `multiple` exactly when a duplicate arrived or it came marked |
| WaterbodyInfo.CheckIfGroupInMapping | app/client/src/components/shared/WaterbodyInfo.tsx:1666-1671 | true exactly when some mapping lists the group name |
| WaterbodyInfo.RowExtended | app/client/src/components/shared/WaterbodyInfo.tsx:1635-1644 | a name not yet in a row, or a new row, extends it and adds its count |
| WaterbodyInfo.AddNameMembers | app/client/src/components/shared/WaterbodyInfo.tsx:1630-1654 | filing a name under a label adds exactly that name to that label's row |
| WaterbodyInfo.FileGroupName | app/client/src/components/shared/WaterbodyInfo.tsx:1630-1655 | one station group name against one mapping: listed names go to the mapping's label, names no mapping lists to `Other`, in each case only once |
| WaterbodyInfo.FileStationGroups | app/client/src/components/shared/WaterbodyInfo.tsx:1629-1656 | after a mapping each station name is under each label seen that lists it, and under `Other` when no mapping lists it; every row lists distinct names and counts their sum |
| WaterbodyInfo.AllSet | app/client/src/components/shared/WaterbodyInfo.tsx:1659-1661 | every label is set, in order, to the one value |
| WaterbodyInfo.SetAll | app/client/src/components/shared/WaterbodyInfo.tsx:1659-1661 | the loop sets every label to the value |
| WaterbodyInfo.BuildGroups | app/client/src/components/shared/WaterbodyInfo.tsx:1619-1664 | text gives no groups; otherwise a label's row holds a station name exactly when its mapping lists it (or, for `Other`, no mapping does), no name twice, the row counting the sum; every row starts selected |
| WaterbodyInfo.FlipRow | app/client/src/components/shared/WaterbodyInfo.tsx:1771-1772 | only the given row flips; a missing row becomes selected |
| WaterbodyInfo.FlipRowTwice | app/client/src/components/shared/WaterbodyInfo.tsx:1771-1772 | flipping a row twice restores the selection |
| WaterbodyInfo.CountSelectedMeaning | app/client/src/components/shared/WaterbodyInfo.tsx:1776-1779 | the count is at most the number of rows, equals it exactly when every row is selected, and is 0 exactly when none is |
| WaterbodyInfo.SelectAllMeaning | app/client/src/components/shared/WaterbodyInfo.tsx:1782-1796 | for a non-empty table the select-all state is 1 exactly when every row is selected, 0 exactly when none is, 2 otherwise |
| WaterbodyInfo.SelectedTypes | app/client/src/components/shared/WaterbodyInfo.tsx:1740-1747 | the characteristic groups of exactly the selected rows |
| WaterbodyInfo.JoinRender | app/client/src/components/shared/WaterbodyInfo.tsx:1742-1746 | the prefix plus the joined names is one `characteristicType` parameter per name |
| WaterbodyInfo.TypeFilterAsksForSelected | app/client/src/components/shared/WaterbodyInfo.tsx:1740-1748 | the row part of the filter asks for exactly the characteristic groups of the selected rows, one parameter each |
| WaterbodyInfo.FilterMeaning | app/client/src/components/shared/WaterbodyInfo.tsx:1735-1758 | in state 2 the download asks for the groups of the selected rows and then the dates; in any other state only the dates |
| WaterbodyInfo.BuildFilter | app/client/src/components/shared/WaterbodyInfo.tsx:1735-1758 | the loop builds the filter `FilterFor` describes |
| WaterbodyInfo.NumberSelected | app/client/src/components/shared/WaterbodyInfo.tsx:1776-1779 | the loop counts the selected rows |
| WaterbodyInfo.SelectedMeasurements | app/client/src/components/shared/WaterbodyInfo.tsx:1797-1803 | the loop adds up the `resultCount` of the selected rows |
| WaterbodyInfo.RowToggled | app/client/src/components/shared/WaterbodyInfo.tsx:1769-1805 | flipping a row and recomputing the state, total and filter keeps the table consistent |
| WaterbodyInfo.AllToggled | app/client/src/components/shared/WaterbodyInfo.tsx:1808-1822 | `toggleAllCheckboxes` keeps the table consistent |
| WaterbodyInfo.MonitoringLocationsContent.constructor | app/client/src/components/shared/WaterbodyInfo.tsx:1726-1733 | the first render's table is consistent, with every row selected, state 1 and the station's total shown |
| WaterbodyInfo.MonitoringLocationsContent.ToggleRow | app/client/src/components/shared/WaterbodyInfo.tsx:1769-1805 | flips only that row and sets the state from the number selected (1 all, 0 none, 2 otherwise); the total and the filter stay the ones that state calls for |
| WaterbodyInfo.MonitoringLocationsContent.ToggleAllCheckboxes | app/client/src/components/shared/WaterbodyInfo.tsx:1808-1822 | from state 0 every row is selected, state 1 and the station total; from any other state every row is cleared, state 0 and total 0 |
| WaterbodyInfo.FileName | app/client/src/components/shared/WaterbodyInfo.tsx:1630-1655 | reference definition: a station group name listed by the mapping goes under the mapping's label, one no mapping lists goes under `Other`, with its count added |
| WaterbodyInfo.Render | app/client/src/components/shared/WaterbodyInfo.tsx:1742-1746 | reference definition: one `&characteristicType=` parameter per name, in order |
| WaterbodyInfo.TypeFilter | app/client/src/components/shared/WaterbodyInfo.tsx:1740-1748 | reference definition of the `for ... in` part: for each selected row, in key order, the parameters of its characteristic groups |
| WaterbodyInfo.TimeframeFilter | app/client/src/components/shared/WaterbodyInfo.tsx:1751-1753 | reference definition: without a timeframe nothing, otherwise `startDateLo` on 1 January of the first year and `startDateHi` on 31 December of the last |
| WaterbodyInfo.FilterFor | app/client/src/components/shared/WaterbodyInfo.tsx:1735-1758 | reference definition of the stored filter: the row part when the select-all state is 2, then the timeframe part |
| WaterbodyInfo.Recount | app/client/src/components/shared/WaterbodyInfo.tsx:1774-1805 | after a row's flip: the select-all state is `SelectAllFor` of the number of selected rows against the row count, the total is `TotalFor` that state, and the filter is `FilterFor` it |
| WaterbodyInfo.SelectAllFor | app/client/src/components/shared/WaterbodyInfo.tsx:1784-1796 | reference definition: 1 when every row is selected, 0 when none is, 2 otherwise (SelectAllMeaning) |
| WaterbodyInfo.TotalFor | app/client/src/components/shared/WaterbodyInfo.tsx:1784-1804 | reference definition: the station's total for state 1, zero for state 0, the selected rows' `resultCount` sum for state 2 |
| WaterbodyInfo.WithMeasurement | app/client/src/components/shared/WaterbodyInfo.tsx:2068-2081 | reference definition of one `addUniqueMeasurement`: the listed measurement with the same parameter code marked `multiple`, or a copy appended |
| WaterbodyInfo.UniqueMeasurements | app/client/src/components/shared/WaterbodyInfo.tsx:2068-2081 | reference definition: the list one `addUniqueMeasurement` call per measurement leaves, in order |
| WaterbodyInfo.Summary | app/client/src/components/shared/WaterbodyInfo.tsx:2068-2092 | reference definition: what the list holds for a code: the first measurement with it, marked `multiple` when another one followed |
| WaterbodyInfo.SumOf | app/client/src/components/shared/WaterbodyInfo.tsx:1637-1652 | reference definition: the sum of the station's counts for a label's group names |
| WaterbodyInfo.AddName | app/client/src/components/shared/WaterbodyInfo.tsx:1634-1652 | reference definition: a group name listed under its label with its count added, the label created when missing, nothing changing when the name is listed already |
| WaterbodyInfo.Sel | app/client/src/components/shared/WaterbodyInfo.tsx:1799 | reference definition: a row is selected when its entry is `true`; a missing one reads `undefined` |
| WaterbodyInfo.CountSelected | app/client/src/components/shared/WaterbodyInfo.tsx:1776-1779 | reference definition: how many rows are selected (CountSelectedMeaning) |
| WaterbodyInfo.SelectedTotal | app/client/src/components/shared/WaterbodyInfo.tsx:1797-1803 | reference definition: the `resultCount` sum of the selected rows |
| Protect.FirstMatch | app/client/src/components/pages/Community/components/tabs/Protect.js:50 | the first state with the code, none exactly when no state has it |
| Protect.StateNames | app/client/src/components/pages/Community/components/tabs/Protect.js:48-53 | at most one name per code |
| Protect.StateNamesSound | app/client/src/components/pages/Community/components/tabs/Protect.js:48-53 | every listed name is the name of the first state matching some code |
| Protect.StateNamesComplete | app/client/src/components/pages/Community/components/tabs/Protect.js:48-53 | every code with a matching state contributes that state's name |
| Protect.StateNamesMembers | app/client/src/components/pages/Community/components/tabs/Protect.js:48-53 | a name is listed exactly when some code's first matching state has it |
| Protect.StateNamesAllMatched | app/client/src/components/pages/Community/components/tabs/Protect.js:48-53 | no code is dropped exactly when every code matches a state |
| Protect.AllButLast | app/client/src/components/pages/Community/components/tabs/Protect.js:59 | `slice(0, -1)` drops exactly the last element, and gives nothing for an empty list |
| Protect.LastText | app/client/src/components/pages/Community/components/tabs/Protect.js:59 | `String(slice(-1))` is the last element, or the empty text for an empty list |
| Protect.CollectNames | app/client/src/components/pages/Community/components/tabs/Protect.js:48-53 | the `forEach` pushes exactly the names `StateNames` describes |
| Protect.ConvertStateCode | app/client/src/components/pages/Community/components/tabs/Protect.js:43-60 | no state data returns the codes as given; one name is returned alone; otherwise the names sorted (a permutation, in order) are joined with commas and `and` before the last; no match gives `" and "` |
| Protect.NativeSortAgrees | app/client/src/components/pages/Community/components/tabs/Protect.js:58 | any sorted arrangement of the names is the one the model computes, so the built-in sort's algorithm does not matter |
| Protect.ExampleTwoStates | app/client/src/components/pages/Community/components/tabs/Protect.js:40-41 | the comment's example: `AL,VA` splits into the codes in order, names "Alabama" and "Virginia" in that order and reads "Alabama and Virginia"; `VA,AL` names them the other way round and reads the same |
| Protect.KeyOf | app/client/src/components/pages/Community/components/tabs/Protect.js:336 | a key names a layer only under that layer's name |
| Protect.KeyOfName | app/client/src/components/pages/Community/components/tabs/Protect.js:336 | a key names a layer exactly when it is that layer's name |
| Protect.DescribesEntry | app/client/src/components/pages/Community/components/tabs/Protect.js:309-338 | a map is the one the update builds exactly when each layer's entry is the expected one |
| Protect.SetEntry | app/client/src/components/pages/Community/components/tabs/Protect.js:337 | one entry is set to the value and the others are kept |
| Protect.Json | app/client/src/components/pages/Community/components/tabs/Protect.js:341 | `JSON.stringify` prints at most one entry per key |
| Protect.JsonConcat | app/client/src/components/pages/Community/components/tabs/Protect.js:341 | printing the keys of two lists is printing each list in turn |
| Protect.LookupToObj | app/client/src/components/pages/Community/components/tabs/Protect.js:341-342 | reading a layer's key from the stored map gives its entry, `undefined` when absent |
| Protect.PrintedPiece | app/client/src/components/pages/Community/components/tabs/Protect.js:341 | the printed part of one layer's key is that entry, nothing when it is absent or `undefined` |
| Protect.OverrideAt | app/client/src/components/pages/Community/components/tabs/Protect.js:336-338 | the override gives the layer's expected entry for its key and value |
| Protect.OverrideDescribes | app/client/src/components/pages/Community/components/tabs/Protect.js:336-338 | the override replaces the entry its key names, when that entry is present, and nothing else |
| Protect.FillVisibleLayers | app/client/src/components/pages/Community/components/tabs/Protect.js:310-334 | a failed service leaves its layer out; otherwise a layer gets its current value when not loaded or when current values are asked for, else its toggle (`false` for the waterbody layer) |
| Protect.UpdateVisibleLayers | app/client/src/components/pages/Community/components/tabs/Protect.js:308-345 | builds the map the inputs call for and sets it exactly when its JSON text differs from the current map's |
| Protect.AbsentKeyIgnored | app/client/src/components/pages/Community/components/tabs/Protect.js:336 | a key that names no present layer changes nothing |
| Protect.LoadedLayersFollowToggles | app/client/src/components/pages/Community/components/tabs/Protect.js:311-334 | a loaded, working layer shows its toggle and the waterbody layer is switched off |
| Protect.ToObjJson | app/client/src/components/pages/Community/components/tabs/Protect.js:341 | printing the stored map gives the new map's entries |
| Protect.RefreshAfterUpdateIsStable | app/client/src/components/pages/Community/components/tabs/Protect.js:363-364 | the refresh with current values right after an update rebuilds the same map and sets nothing |
| Protect.UndefinedEntriesSetNothing | app/client/src/components/pages/Community/components/tabs/Protect.js:310-342 | before any layer exists, over an empty map, the new map has keys but prints the same, so nothing is set |
| Protect.GrtsProjects | app/client/src/components/pages/Community/components/tabs/Protect.js:222-242 | only GRTS projects, at most one per item |
| Protect.GrtsProjectsMembers | app/client/src/components/pages/Community/components/tabs/Protect.js:222-242 | a project is listed exactly when an item flagged `Y` gives it |
| Protect.AttainsProjects | app/client/src/components/pages/Community/components/tabs/Protect.js:255-272 | only ATTAINS projects, at most one per plan |
| Protect.AttainsProjectsMembers | app/client/src/components/pages/Community/components/tabs/Protect.js:255-272 | a project is listed exactly when a `Protection Approach` plan gives it |
| Protect.NormalizeAttains | app/client/src/components/pages/Community/components/tabs/Protect.js:255-272 | the `forEach` pushes exactly the projects `AttainsProjects` describes |
| Protect.GrtsUpdate | app/client/src/components/pages/Community/components/tabs/Protect.js:219-245 | nothing is stored while fetching or for no items, otherwise the normalised GRTS list |
| Protect.AttainsUpdate | app/client/src/components/pages/Community/components/tabs/Protect.js:251-275 | nothing is stored while fetching or for no plans, otherwise the normalised ATTAINS list |
| Protect.AllProjects | app/client/src/components/pages/Community/components/tabs/Protect.js:277-284 | the list is as long as the two lists together |
| Protect.AllProjectsSorted | app/client/src/components/pages/Community/components/tabs/Protect.js:277-284 | for a total title order the list is sorted by title and holds each project of both lists as often as given |
| Protect.DisplayedTypes | app/client/src/components/pages/Community/components/tabs/Protect.js:290-292 | a source is listed exactly when its toggle is on |
| Protect.FilteredProjects | app/client/src/components/pages/Community/components/tabs/Protect.js:289-294 | the filter keeps at most the projects it is given |
| Protect.FilteredProjectsMembers | app/client/src/components/pages/Community/components/tabs/Protect.js:289-294 | a project is shown exactly when it is listed and its source's toggle is on; both on keep the list whole, both off empty it |
| Protect.LayerOf | app/client/src/components/pages/Community/components/tabs/Protect.js:311-334 | reference definition: the layer object each visible-layer key is tested against |
| Protect.Toggle | app/client/src/components/pages/Community/components/tabs/Protect.js:311-334 | reference definition: the toggle a loaded layer takes (health scores, protected areas, wild and scenic rivers), and `false` for the waterbody layer |
| Protect.FromGrts | app/client/src/components/pages/Community/components/tabs/Protect.js:226-241 | reference definition: a GRTS item becomes a `grts` project with its title, id and status |
| Protect.FromAttains | app/client/src/components/pages/Community/components/tabs/Protect.js:258-271 | reference definition: an ATTAINS plan becomes an `attains` project with its action name, identifier and status code |
| Protect.Shown | app/client/src/components/pages/Community/components/tabs/Protect.js:311-329 | reference definition: the current entry when the layer object does not exist or current values are kept, the layer's toggle otherwise |
| Protect.Expected | app/client/src/components/pages/Community/components/tabs/Protect.js:308-334 | reference definition: no entry for a failed service, `newValue` for the layer `key` names, the shown value otherwise |
| Protect.Overridden | app/client/src/components/pages/Community/components/tabs/Protect.js:331-333 | reference definition: `newValue` set under `key` only when the built map has that own property |
| Protect.TitleLe | app/client/src/components/pages/Community/components/tabs/Protect.js:281-283 | reference definition: projects compared by title under `le`, which stands for `localeCompare(a, b) <= 0` |
| Protect.Name | app/client/src/components/pages/Community/components/tabs/Protect.js:311-334 | reference definition: the key each layer has in the visible-layers map |
| Protect.Lookup | app/client/src/components/pages/Community/components/tabs/Protect.js:313-330 | reference definition: `visibleLayers[key]`, `undefined` when missing |
| Protect.HasOwn | app/client/src/components/pages/Community/components/tabs/Protect.js:336 | reference definition of `hasOwnProperty`: the key names a layer whose entry was set |
| Protect.Printed | app/client/src/components/pages/Community/components/tabs/Protect.js:341 | reference definition: `JSON.stringify` prints an entry unless it is absent or `undefined` |
| Protect.EntriesJson | app/client/src/components/pages/Community/components/tabs/Protect.js:341 | reference definition: the entries `JSON.stringify` prints of the new map, in the order they were set |
| Protect.ToObj | app/client/src/components/pages/Community/components/tabs/Protect.js:308-345 | reference definition: the new map as the object stored, its keys in the order they were set |
| Protect.IsProtectGrts | app/client/src/components/pages/Community/components/tabs/Protect.js:224 | reference definition: a GRTS item whose `ws_protect_ind` is `Y` |
| Protect.IsProtectionApproach | app/client/src/components/pages/Community/components/tabs/Protect.js:257 | reference definition: an ATTAINS plan whose action type is `Protection Approach` |
| FilePanel.Titles | app/client/src/components/shared/AddDataWidget/FilePanel.js:30-33 | the used names are the layers' titles, in order |
| FilePanel.CandidatesDistinct | app/client/src/components/shared/AddDataWidget/FilePanel.js:37-42 | different collision counts try different names |
| FilePanel.TriedAreEarlier | app/client/src/components/shared/AddDataWidget/FilePanel.js:37-42 | a name tried before the k-th is a candidate numbered below k |
| FilePanel.TriedHasEarlier | app/client/src/components/shared/AddDataWidget/FilePanel.js:37-42 | every candidate numbered below k was tried |
| FilePanel.TriedCount | app/client/src/components/shared/AddDataWidget/FilePanel.js:37-42 | the k names tried are distinct and do not include the k-th |
| FilePanel.GetLayerName | app/client/src/components/shared/AddDataWidget/FilePanel.js:28-45 | the result is the first candidate (the desired name, then `"<name> (1)"`, `"<name> (2)"`, ...) not among the titles; the loop ends; a free desired name is kept |
| FilePanel.LayerNameUnique | app/client/src/components/shared/AddDataWidget/FilePanel.js:28-45 | the name is determined by the titles and the desired name |
| FilePanel.FirstDuplicate | app/client/src/components/shared/AddDataWidget/FilePanel.js:36-42 | a name taken once gets ` (1)` appended |
| FilePanel.DetectFileType | app/client/src/components/shared/AddDataWidget/FilePanel.js:180-186 | the chain of `if`s leaves the type of the last extension the name ends with, `""` for none |
| FilePanel.SuffixChar | app/client/src/components/shared/AddDataWidget/FilePanel.js:181-186 | a name ending in a suffix has the suffix's characters at its end |
| FilePanel.ExtensionsDiffer | app/client/src/components/shared/AddDataWidget/FilePanel.js:181-186 | any two of the extensions differ at some place from the end |
| FilePanel.SuffixesExclusive | app/client/src/components/shared/AddDataWidget/FilePanel.js:181-186 | no name ends in two of the extensions |
| FilePanel.FileTypeByExtension | app/client/src/components/shared/AddDataWidget/FilePanel.js:181-186 | a name ending in an extension gets that extension's type, `.geo.json` included |
| FilePanel.LastMatchAbove | app/client/src/components/shared/AddDataWidget/FilePanel.js:181-186 | a later extension that does not match leaves the earlier match's type |
| FilePanel.NoExtensionNoType | app/client/src/components/shared/AddDataWidget/FilePanel.js:180-186 | a name with none of the extensions has no type |
| FilePanel.Panel.constructor | app/client/src/components/shared/AddDataWidget/FilePanel.js:161-166 | no file, empty status, no responses and no features added |
| FilePanel.Panel.OnDrop | app/client/src/components/shared/AddDataWidget/FilePanel.js:168-205 | no files, or a first file without a name, change nothing; otherwise the file is stored with its type, the responses and `featuresAdded` reset, and the status is `fetching`, or `invalid-file-type` for no matching extension |
| FilePanel.Panel.StartAnalyze | app/client/src/components/shared/AddDataWidget/FilePanel.js:217-252 | only a typed CSV file not yet analysed and not last sent is analysed, its flag set first |
| FilePanel.Panel.StartGenerate | app/client/src/components/shared/AddDataWidget/FilePanel.js:254-271 | with a map, a typed file not last sent is generated, except KML and a CSV still waiting for its analysis; its name is recorded |
| FilePanel.Panel.StartKml | app/client/src/components/shared/AddDataWidget/FilePanel.js:460-468 | with a map, a KML file not last sent is read |
| FilePanel.Panel.KmlResolved | app/client/src/components/shared/AddDataWidget/FilePanel.js:489-492 | the KML response is stored as it is |
| FilePanel.Panel.AnalyzeResolved | app/client/src/components/shared/AddDataWidget/FilePanel.js:244-246 | the analysis response is stored |
| FilePanel.Panel.GenerateResolved | app/client/src/components/shared/AddDataWidget/FilePanel.js:327-334 | a response with an error sets `import-error` and is not stored; any other is stored |
| FilePanel.Panel.RequestFailed | app/client/src/components/shared/AddDataWidget/FilePanel.js:335-338 | a rejected request sets `failure` |
| FilePanel.Panel.KmlReadFailed | app/client/src/components/shared/AddDataWidget/FilePanel.js:473-476 | an unreadable KML file sets `file-read-error` |
| FilePanel.Panel.AddFeatures | app/client/src/components/shared/AddDataWidget/FilePanel.js:358-441 | without a map, a typed file and a response, or once features were added, nothing happens; no layers give `no-data`; otherwise each layer with features is added under a `getLayerName` name computed against the widget layers as they were, and the status is `success` |
| FilePanel.Panel.AddFeaturesDistinct | app/client/src/components/shared/AddDataWidget/FilePanel.js:358-441 | the same effect naming each layer against the widget layers and the names already given, so every added name is new and no two are equal |
| FilePanel.NameLayers | app/client/src/components/shared/AddDataWidget/FilePanel.js:375-436 | one name per layer with features, each the `getLayerName` of the same titles |
| FilePanel.NameLayersDistinct | app/client/src/components/shared/AddDataWidget/FilePanel.js:375-436 | one name per layer with features, none a title in use and no two equal |
| FilePanel.FreshName | app/client/src/components/shared/AddDataWidget/FilePanel.js:419 | a name free among the widget layers and the names given so far is new on both counts |
| FilePanel.SameNameTwice | app/client/src/components/shared/AddDataWidget/FilePanel.js:375-436 | as written, the first two layers with features in one response get the same title |
| FilePanel.Candidate | app/client/src/components/shared/AddDataWidget/FilePanel.js:37-42 | reference definition: the name tried after `k` collisions, the desired name for 0 and `"<name> (k)"` after |
| FilePanel.FileTypeOf | app/client/src/components/shared/AddDataWidget/FilePanel.js:180-186 | reference definition: the type of the last of the six `endsWith` checks that matches, `""` when none does |
| FilePanel.LastMatch | app/client/src/components/shared/AddDataWidget/FilePanel.js:180-186 | reference definition: the type of the last of the first n extension checks that matches, `""` when none does |
| FilePanel.WithFeatures | app/client/src/components/shared/AddDataWidget/FilePanel.js:376-382 | reference definition: the number of response layers that hold features |
| LookupFiles.WalkConcat | app/client/src/contexts/LookupFiles.js:272-274 | walking a path in two pieces is walking it whole, and a throw in the first piece ends the walk |
| LookupFiles.WalkFails | app/client/src/contexts/LookupFiles.js:272-274 | the walk throws exactly when a proper prefix of the path reaches `undefined` or `null` |
| LookupFiles.ResolvePath | app/client/src/contexts/LookupFiles.js:270-274 | the `forEach` that reassigns `urlLookup` reaches the value the path walks to, or throws where the walk does |
| LookupFiles.MappingMembers | app/client/src/contexts/LookupFiles.js:265-284 | the mapping succeeds exactly when every item's entry does, and then has one entry per item, in order |
| LookupFiles.MappingErrorStays | app/client/src/contexts/LookupFiles.js:265-284 | once a prefix of the items throws, the whole mapping throws with that error |
| LookupFiles.BuildAnalyticsMapping | app/client/src/contexts/LookupFiles.js:265-286 | the `forEach` builds exactly the mapping `AnalyticsMapping` describes, stopping at the first throw |
| LookupFiles.BuildEntry | app/client/src/contexts/LookupFiles.js:267-283 | one item's entry: its base URL, every placeholder replaced, its name |
| LookupFiles.OriginReplacesEveryPlaceholder | app/client/src/contexts/LookupFiles.js:268-278 | an item whose `urlLookup` is `origin` has every `{urlLookup}` replaced by the origin, and keeps its name |
| LookupFiles.PathBaseUrl | app/client/src/contexts/LookupFiles.js:269-275 | any other `urlLookup` is split on dots and walked through the services data, throwing exactly when a prefix reaches `undefined` or `null` |
| LookupFiles.Lookups.constructor | app/client/src/contexts/LookupFiles.js:73-113 | every lookup starts `fetching` with its initial data, no flag set, nothing requested |
| LookupFiles.Lookups.UseLookupFile | app/client/src/contexts/LookupFiles.js:146-245 | the first call of a lookup-file hook sets its flag and requests its file; later calls request nothing; each returns the current state |
| LookupFiles.Lookups.Resolved | app/client/src/contexts/LookupFiles.js:9-19 | a resolved fetch sets that lookup to `success` with the data and changes nothing else |
| LookupFiles.Lookups.Rejected | app/client/src/contexts/LookupFiles.js:9-19 | a rejected fetch sets that lookup to `failure` with the error and changes nothing else |
| LookupFiles.Lookups.UseServices | app/client/src/contexts/LookupFiles.js:247-297 | the first call sets the flag, records the origin (port 9091 of `localhost` in development, the page's origin otherwise) and requests `config/services.json` |
| LookupFiles.Lookups.ServicesResolved | app/client/src/contexts/LookupFiles.js:263-293 | the mapping is built and published and the services become `success`; a throw while building makes them `failure` and publishes nothing |
| LookupFiles.Lookups.UseOrganizations | app/client/src/contexts/LookupFiles.js:300-326 | only once, and only when the services are `success`, the flag is set and the control table is queried; a missing `waterbodyService` throws after the flag is set |
| LookupFiles.Get | app/client/src/contexts/LookupFiles.js:266-282 | reference definition of a property read: `undefined` and `null` throw, an object gives its own property or `undefined`, any other value `undefined` |
| LookupFiles.Walk | app/client/src/contexts/LookupFiles.js:272-274 | reference definition: the properties of the path read one after the other, the first throw ending the walk |
| LookupFiles.JsText | app/client/src/contexts/LookupFiles.js:278 | reference definition of the string conversion `replace` applies to the base URL, arrays joined with commas and their `null`/`undefined` elements empty |
| LookupFiles.MappingEntry | app/client/src/contexts/LookupFiles.js:267-283 | reference definition of one item's entry: the base URL, every `{urlLookup}` of the `wildcardUrl` replaced by its text, and the item's `name`; a read that throws, or a `wildcardUrl` that is not a string, throws |
| LookupFiles.AnalyticsMapping | app/client/src/contexts/LookupFiles.js:265-284 | reference definition: `googleAnalyticsMapping` must be a list, and its items' entries in order, the first throw ending the mapping |
| LookupFiles.InitialState | app/client/src/contexts/LookupFiles.js:73-113 | reference definition: every lookup `fetching`, with an empty list for the list-valued files and an empty object for the others |
| LookupFiles.Origin | app/client/src/contexts/LookupFiles.js:257-260 | reference definition: port 9091 of the host on `localhost`, the page's origin otherwise |
| LookupFiles.BaseUrl | app/client/src/contexts/LookupFiles.js:268-275 | reference definition: the origin for `'origin'`, otherwise the value the dotted path reaches in the services data; a `urlLookup` that is not a string throws |
| LookupFiles.Mapping | app/client/src/contexts/LookupFiles.js:265-284 | reference definition: the entries of the items in order, the first throw ending it |
| LookupFiles.FileName | app/client/src/contexts/LookupFiles.js:153-337 | reference definition: the file each `getLookupFile` hook fetches |
| LookupFiles.OrganizationsUrl | app/client/src/contexts/LookupFiles.js:310-314 | reference definition: the control table's query URL with the four output fields joined by `%2C` |
| LookupFiles.Thrown | app/client/src/contexts/LookupFiles.js:290-292 | reference definition: the value stored as `data` when a caught error sets `failure` |
| WaterbodyList.ByAttributeTotal | app/client/src/components/pages/State/components/WaterbodyList.js:85-87 | a total `localeCompare` order on the attribute orders every pair of waterbodies |
| WaterbodyList.SortInPlace | app/client/src/components/pages/State/components/WaterbodyList.js:85-87 | the array's new contents are its old contents sorted by the attribute |
| WaterbodyList.SortedByAttribute | app/client/src/components/pages/State/components/WaterbodyList.js:85-87 | under a total order the sorted list is in attribute order and holds the same waterbodies, each as often |
| WaterbodyList.Without | app/client/src/components/pages/State/components/WaterbodyList.js:181 | the filter keeps exactly the other rows |
| WaterbodyList.ToggleRow | app/client/src/components/pages/State/components/WaterbodyList.js:179-183 | an expanded row is collapsed, a collapsed one appended; no other row changes |
| WaterbodyList.ToggleRowTwice | app/client/src/components/pages/State/components/WaterbodyList.js:179-183 | toggling a row twice restores which rows are expanded |
| WaterbodyList.WaterbodyStatus | app/client/src/components/pages/State/components/WaterbodyList.js:121-145 | `selected` exactly when the row has a non-empty id the selected graphic shares; otherwise `highlighted` exactly when the highlighted graphic shares it; no status without an id |
| WaterbodyList.ItemKeySeparatesUnits | app/client/src/components/pages/State/components/WaterbodyList.js:154-158 | within one symbol type and organization two rows have the same key exactly when they have the same assessment unit id |
| WaterbodyList.ListState.constructor | app/client/src/components/pages/State/components/WaterbodyList.js:62-78 | loading, sorted by name, no row expanded |
| WaterbodyList.ListState.WaterbodiesChanged | app/client/src/components/pages/State/components/WaterbodyList.js:63-71 | without waterbodies the spinner shows; with them a 250 ms timer starts |
| WaterbodyList.ListState.TimerFired | app/client/src/components/pages/State/components/WaterbodyList.js:67-69 | the timer ends loading |
| WaterbodyList.ListState.SortChanged | app/client/src/components/pages/State/components/WaterbodyList.js:111 | a new sort option replaces the sort attribute |
| WaterbodyList.ListState.RowChanged | app/client/src/components/pages/State/components/WaterbodyList.js:173-184 | the row's expanded flag toggles as `ToggleRow` says, nothing else changes |
| WaterbodyList.ListState.Render | app/client/src/components/pages/State/components/WaterbodyList.js:80-87 | the spinner while loading or without waterbodies, the message for an empty list, a throw when two or more waterbodies include one without the attribute, else the rows after sorting in place |
| WaterbodyList.Attribute | app/client/src/components/pages/State/components/WaterbodyList.js:85-87 | reference definition of `attributes[name]`: absent when the graphic has no attributes or not that one |
| WaterbodyList.AttributeText | app/client/src/components/pages/State/components/WaterbodyList.js:85-87 | reference definition: the attribute as text, `"undefined"` when absent |
| WaterbodyList.ByAttribute | app/client/src/components/pages/State/components/WaterbodyList.js:85-87 | reference definition of the comparator: the chosen attribute of each waterbody compared under `le`, which stands for `localeCompare(a, b) <= 0` |
| WaterbodyList.ItemKey | app/client/src/components/pages/State/components/WaterbodyList.js:154-158 | reference definition of the row key: the symbol type, organization id and assessment unit id concatenated, a missing one reading `"undefined"`; a `TypeError` for a graphic without attributes |
| WaterbodyList.Sortable | app/client/src/components/pages/State/components/WaterbodyList.js:85-87 | reference definition: every waterbody has the attribute the comparator reads |
| WaterbodyList.HasId | app/client/src/components/pages/State/components/WaterbodyList.js:131-140 | reference definition: a selected or highlighted graphic with attributes whose assessment unit id is the row's |
| LocationSearch.SubmitSplicesText | app/client/src/components/shared/LocationSearch/index.js:87 | a submit puts the trimmed text in place of the first `{urlSearch}`, leaving everything else, or leaves a route without one as it is |
| LocationSearch.WhiteSpaceSubmitsEmpty | app/client/src/components/shared/LocationSearch/index.js:84-87 | text of white space only passes the guard and splices the empty text into the route |
| LocationSearch.SearchBox.constructor | app/client/src/components/shared/LocationSearch/index.js:69-75 | not locating, no error, the input showing the context's search text |
| LocationSearch.SearchBox.SearchTextChanged | app/client/src/components/shared/LocationSearch/index.js:77-78 | a new search text is copied into the input, which disables Go |
| LocationSearch.SearchBox.InputChanged | app/client/src/components/shared/LocationSearch/index.js:97-100 | typing replaces the input; Go is disabled exactly when it equals the search text |
| LocationSearch.SearchBox.Submit | app/client/src/components/shared/LocationSearch/index.js:82-89 | empty input does nothing; otherwise the error is cleared and the route with the trimmed text is navigated to |
| LocationSearch.SearchBox.UseMyLocation | app/client/src/components/shared/LocationSearch/index.js:104-118 | the button is offered only with geolocation and without an earlier error; a click starts locating |
| LocationSearch.SearchBox.LocationFound | app/client/src/components/shared/LocationSearch/index.js:131-138 | locating stops and the route with the found address is navigated to |
| LocationSearch.SearchBox.LocationFailed | app/client/src/components/shared/LocationSearch/index.js:141-145 | locating stops and the error button replaces the location button |
| LocationSearch.RouteTo | app/client/src/components/shared/LocationSearch/index.js:87 | reference definition: the route with its first `{urlSearch}` replaced by the text, as `replace` with a string pattern does |
| LocationSearch.SubmitTarget | app/client/src/components/shared/LocationSearch/index.js:84-87 | reference definition: the route for the trimmed input text |
| LocationSearch.SearchBox.GoDisabled | app/client/src/components/shared/LocationSearch/index.js:100 | reference definition: the Go button is disabled while the input text equals the current search |
| Endangered.Items | app/server/app/public/endangered/main.js:51 | the elements read as values, one item per element |
| Endangered.Resolve | app/server/app/public/endangered/main.js:59-61 | every slot of the way becomes what the node map holds for it |
| Endangered.FirstStopFrom | app/server/app/public/endangered/main.js:51-85 | the first item from a given index on where the walk throws (a way without tags, or a way without a `waterway` tag whose polygon branch throws), with no such item before it; the length when there is none |
| Endangered.FirstStop | app/server/app/public/endangered/main.js:51-85 | where the walk throws: the first untagged way or failing polygon, with none before it; the length when the walk completes |
| Endangered.Processed | app/server/app/public/endangered/main.js:51-85 | the loop leaves one item per element |
| Endangered.NodesBeforeLastWrite | app/server/app/public/endangered/main.js:54-56 | an id is in the node map after k elements exactly when a node with that id came before, and it holds the last such node's coordinates |
| Endangered.ResolvesOnlyEarlierNodes | app/server/app/public/endangered/main.js:58-61 | a way's node id resolves to coordinates exactly when a node with that id came before the way; later nodes give `undefined` |
| Endangered.IpacWktFirstOnly | app/server/app/public/endangered/main.js:2 | only the first `POLYGON` of the WKT text becomes `Polygon`, the rest is kept |
| Endangered.ResolveWay | app/server/app/public/endangered/main.js:59-61 | the `for` loop replaces each slot of the way's array in place by its lookup |
| Endangered.ResolvedBeforeProcessed | app/server/app/public/endangered/main.js:51-85 | once every way up to the stopping point is resolved, the elements are the processed items |
| Endangered.Step | app/server/app/public/endangered/main.js:52-84 | one turn of the loop keeps the ways before it resolved, remembers a node, draws a way, and throws exactly where the walk stops: a `TypeError` for a way without tags, or the polygon branch's own error, drawing nothing then |
| Endangered.UpdateWaterways | app/server/app/public/endangered/main.js:48-85 | the ways up to where the walk stops are resolved in place against the nodes before them, every way before it is drawn (a marker with the fixed popup "Looks good! Have fun!" and a polygon, or a polyline for a `waterway`; the species count goes into a local that nothing reads), and the walk throws exactly when it stops early: a `TypeError` at an untagged way, or the error of a failing polygon branch |
| Endangered.NodesBefore | app/server/app/public/endangered/main.js:54-56 | reference definition: the node map after the first k elements, each node setting its id and a later one overwriting an earlier one |
| Endangered.Lookup | app/server/app/public/endangered/main.js:60 | reference definition of `nodes.get` on a slot: a known id gives its coordinates, anything else `undefined` |
| Endangered.Drawn | app/server/app/public/endangered/main.js:63-83 | reference definition of what a tagged way draws: a marker with the fixed popup "Looks good! Have fun!" then a polygon, or a polyline for a `waterway`; the species count assigned to `noEndangeredSpecies` is never read, so it changes nothing drawn |
| Endangered.ShapesIgnoreCount | app/server/app/public/endangered/main.js:74-80 | two answers of the species query that throw on the same ways stop the walk at the same way and draw the same shapes: the count itself changes nothing on the map |
| Endangered.Shapes | app/server/app/public/endangered/main.js:51-85 | reference definition: the shapes of the ways among the first k elements, in order, each over its resolved points |
| Endangered.IpacWkt | app/server/app/public/endangered/main.js:2 | reference definition: the WKT with its first `POLYGON` replaced by `Polygon` |
| Endangered.Stops | app/server/app/public/endangered/main.js:59-75 | reference definition: the walk ends at a way without tags, where reading `tags.waterway` throws, or at a way without a `waterway` tag whose polygon branch throws |
| Endangered.StopError | app/server/app/public/endangered/main.js:63-75 | reference definition: a `TypeError` for the untagged way, the polygon branch's own error otherwise |
| JsObjects.Obj.Put | app/client/src/components/shared/WaterbodyInfo.tsx:1640-1644 | assigning a property stores the value; a present key keeps its place, a new key is appended |
| JsObjects.Obj.Values | app/client/src/components/shared/WaterbodyInfo.tsx:1777 | `Object.values` lists the values in key order, one per key |
| JsObjects.Empty | app/client/src/components/shared/WaterbodyInfo.tsx:1622-1623 | `{}` has no keys |
| JsObjects.PutValid | app/client/src/components/shared/WaterbodyInfo.tsx:1640-1644 | an assignment keeps the keys distinct and matching the stored values, adding one key exactly when it is new |
| JsObjects.SameKeysValid | app/client/src/components/shared/WaterbodyInfo.tsx:1659-1661 | replacing the values under the existing keys keeps the object well formed |
| JsStrings.IndexOf | app/client/src/components/shared/LocationSearch/index.js:87 | the first occurrence at or after the start, none exactly when there is no occurrence |
| JsStrings.SubstituteLiteral | app/client/src/components/shared/LocationSearch/index.js:87 | a replacement without `$` is inserted verbatim |
| JsStrings.ReplaceFirstLiteral | app/client/src/components/shared/LocationSearch/index.js:87 | `replace` with a string pattern splices the replacement in at the first occurrence only, and leaves a string without one unchanged |
| JsStrings.SplitFrom | app/client/src/components/pages/Community/components/tabs/Protect.js:45 | `split` gives at least one piece |
| JsStrings.SplitJoin | app/client/src/contexts/LookupFiles.js:271 | splitting and joining with the same separator gives the text back |
| JsStrings.SplitPiecesFree | app/client/src/contexts/LookupFiles.js:271 | no piece of a split contains the separator |
| JsStrings.ReplaceAllIsSplitJoin | app/client/src/contexts/LookupFiles.js:278 | the global `replace` with a `$`-free replacement is splitting at the pattern and joining with the replacement |
| JsStrings.TrimStart | app/client/src/components/shared/LocationSearch/index.js:87 | drops exactly the leading white space |
| JsStrings.TrimEnd | app/client/src/components/shared/LocationSearch/index.js:87 | drops exactly the trailing white space |
| JsStrings.Trim | app/client/src/components/shared/LocationSearch/index.js:87 | `trim` keeps the stretch between the leading and trailing white space, which neither starts nor ends with white space |
| JsStrings.TrimEmpty | app/client/src/components/shared/LocationSearch/index.js:84-87 | only white space trims to the empty text |
| JsStrings.Decimal | app/client/src/components/shared/WaterbodyInfo.tsx:63-66 | the decimal text of a number: at least one digit, a single one exactly below 10 |
| JsStrings.DecimalInjective | app/client/src/components/shared/WaterbodyInfo.tsx:63-66 | distinct numbers have distinct decimal texts |
| JsStrings.ParseDecimalOf | app/client/src/components/shared/WaterbodyInfo.tsx:63-66 | reading a number's decimal text gives the number back |
| JsStrings.LeadingNumberOf | app/client/src/components/shared/WaterbodyInfo.tsx:63-66 | the digits of a number's text, followed by a non-digit or nothing, read back as the number |
| JsStrings.ParseIntOfDecimal | app/client/src/components/shared/WaterbodyInfo.tsx:63-66 | `parseInt` of a number's text, with an optional sign and a non-numeric trailer, is the signed number |
| JsStrings.ParseIntNoDigits | app/client/src/components/shared/WaterbodyInfo.tsx:63-66 | text without a digit parses to `NaN` |
| JsStrings.LexLeTotal | app/client/src/components/pages/Community/components/tabs/Protect.js:58 | the default string order relates every pair |
| JsStrings.LexLeTransitive | app/client/src/components/pages/Community/components/tabs/Protect.js:58 | the default string order is transitive |
| JsStrings.LexLeAntisymmetric | app/client/src/components/pages/Community/components/tabs/Protect.js:58 | strings ordered both ways are equal |
| JsStrings.SortedStringsUnique | app/client/src/components/pages/Community/components/tabs/Protect.js:58 | two sorted arrangements of the same strings are the same list |
| JsStrings.Insert | app/client/src/components/pages/State/components/WaterbodyList.js:85-87 | inserting adds exactly one element and keeps the others |
| JsStrings.SortBy | app/client/src/components/pages/State/components/WaterbodyList.js:85-87 | the sorted list holds the same elements, each as often |
| JsStrings.InsertSorted | app/client/src/components/pages/State/components/WaterbodyList.js:85-87 | inserting into a sorted list under a total order keeps it sorted |
| JsStrings.SortByCorrect | app/client/src/components/pages/State/components/WaterbodyList.js:85-87 | under a total order the result is sorted and a permutation of the input |
| JsStrings.LexLeIsTotal | app/client/src/components/pages/Community/components/tabs/Protect.js:58 | the default string order is total |
| JsStrings.Substitute | app/client/src/contexts/LookupFiles.js:278 | reference definition of GetSubstitution (section 22.1.3.19.1 of ECMA-262) without capture groups: `$$`, `$&`, `` $` `` and `$'` expand, every other character is copied |
| JsStrings.ReplaceFirst | app/client/src/components/shared/LocationSearch/index.js:87 | reference definition of `replace` with a string pattern: the first occurrence replaced by the substituted replacement, the text unchanged without one |
| JsStrings.ReplaceAllFrom | app/client/src/contexts/LookupFiles.js:278 | reference definition of a global `replace` with a literal pattern: every non-overlapping occurrence from the position on, scanned left to right |
| JsStrings.Split | app/client/src/contexts/LookupFiles.js:271 | reference definition of `split` with a non-empty separator: the pieces between its occurrences, left to right |
| JsStrings.Join | app/client/src/components/pages/Community/components/tabs/Protect.js:59 | reference definition of `join`: the pieces with the separator between each two |
| JsStrings.ParseInt | app/client/src/components/shared/WaterbodyInfo.tsx:63-66 | reference definition of `parseInt(s, 10)`: leading white space skipped, an optional sign, the longest run of digits; `NaN` without a digit |
| JsStrings.LexLe | app/client/src/components/pages/Community/components/tabs/Protect.js:58 | reference definition of the default `sort` order on strings: character by character, a proper prefix first |
| JsStrings.EndsWith | app/client/src/components/shared/AddDataWidget/FilePanel.js:181-186 | reference definition of `endsWith`: the string's last characters are the suffix |
| JsStrings.ReplaceAll | app/client/src/contexts/LookupFiles.js:278 | reference definition of a global `replace` with a non-empty literal pattern: every occurrence from the start, left to right (ReplaceAllIsSplitJoin) |
| JsStrings.IsWhiteSpace | app/client/src/components/shared/LocationSearch/index.js:87 | reference definition: the WhiteSpace and LineTerminator code points of sections 12.2 and 12.3 of ECMA-262, which `trim` removes |
| JsStrings.LeadingNumber | app/client/src/components/shared/WaterbodyInfo.tsx:63-66 | reference definition: the value of the run of digits a string starts with, none without a digit (LeadingNumberOf) |

## Left out

- StationParsing.GroupTypes: states which label lists which type name, not the order of the names within a label's list (the mappings' order, then the key order of the types).
- Rendering: JSX, styles, accordions, tables, charts and popup text are not modelled; a render is reduced to the value it shows (`WaterbodyList.View`) or the flags it reads.
- The ArcGIS map objects (layers, graphics, views, watchers, geometry engine) are reduced to the fields and flags the code reads and sets; `intersects`, the view scale and the extent are parameters, a watcher firing is a method call.
- Network and file I/O: every fetch, `FileReader` and Papa parse result is a parameter of the method that handles it, or a `Resolved`/`Rejected` method per promise outcome; abort controllers, timers and `setTimeout` are left out, except `WaterbodyList`'s 250 ms timer, which is a returned delay plus `WaterbodyList.ListState.TimerFired`.
- Concurrency: async callbacks, promise interleaving and React's batching of state updates are not modelled; each handler and effect runs atomically, in the order its method is called.
- Floating point: opacities and the map scale are `real`; coordinates are `real`; JSON numbers are `int`; the mean, median and standard deviation of measurements, extent arithmetic and `Date` code are not modelled; the CyAN date conversion (`cyanDateToEpoch`) is a parameter; the rounding of the WSIO layer's values is not modelled.
- `localeCompare` is an abstract relation `le`; the lemmas about sortedness require it to be total, which the engine's collation is.
- `Array.prototype.sort` is modelled as a stable insertion sort, not the engine's own algorithm; where the comparator is not a total order the two can order elements differently; for the default string order, `Protect.NativeSortAgrees` proves every sorted arrangement is the one the model computes.
- Strings are sequences of Unicode scalar values, whereas JavaScript compares UTF-16 code units; the two orders differ only for characters outside the Basic Multilingual Plane.
- `encodeURI` and `encodeURIComponent` are left out; the text spliced into a route is the raw text.
- `JsStrings.ReplaceFirst` models the `$` substitution patterns, but the lemmas about routes and origins (`LocationSearch.SubmitSplicesText`, `LookupFiles.OriginReplacesEveryPlaceholder`) are stated for replacement text without `$`.
- LocationSearch.SubmitSplicesText: stated only for trimmed text without `$`, where the replacement is the text itself.
- FilePanel: the loop that tries decimal generalization resolutions, the building of fields, renderers and popups, the CSV analyze parameters and the parsing of the file contents are not modelled; a layer is its title and feature count.
- Property reads (`LookupFiles.Get`): a read on a string, number or array yields `undefined`, so `length` and array indices are not modelled; the context's default values are not modelled.
- JsObjects.Obj.Put: appends every new key, whereas JavaScript lists integer-like keys ("0", "2", …) first, in ascending order; the keys the modelled code iterates over (group labels, characteristic, type and group names, layer names) are not integer-like in practice.
- Integers are unbounded; counts and ids above 2^53, where JavaScript numbers lose precision, are not modelled.
- Endangered: turf, GeoJSON conversion, Terraformer and Leaflet are not modelled. The whole polygon branch (the GeoJSON conversion, `turf.polygon`, `getAllData` and the `populationsBySid` read) is the `populations` parameter. It gives the populations count for the way's resolved points or the error the branch throws: `LibraryError` for a library call or a rejected request, `TypeError` for the missing field. Which rings the libraries refuse (an `undefined` point, an unclosed ring, fewer than four points) is not modelled, nor is the text of their errors. The populations count is read only into the local `noEndangeredSpecies`, which nothing reads; the marker's position, turf's centre of mass, is not modelled. Every way is taken to have a `nodes` array, and elements that are neither nodes nor ways are skipped.
- The body of `filterData` is not part of this model; it is modelled, from its call sites in `cyanWaterbodies.ts`, as the stable removal of the records whose `FID` is in the exclusion list (`CyanWaterbodies.FilterData`).
- StationParsing.ParseCharcs: requires that every type belongs to a single group, which holds for the input `useCharacteristics` builds, since it looks the group up from the type.
- StationReducer: implements the rule as written (sum of child states); the intended rule is stated and proved only at the specification level, in `StationCheckboxes` and `StationFilters` (see Findings).
- WaterbodyList.ListState.Render: reports a throw whenever a list of two or more waterbodies has one without the sort attribute; the engine throws only when it passes that waterbody as the comparator's first argument, which depends on its sort algorithm.

## Findings

| source | as written | input that shows it | evidently intended | confidence | as-written member | corrected member |
|---|---|---|---|---|---|---|
| app/client/src/components/pages/MonitoringStation.js:807-818 | a parent checkbox's state is computed from the sum of its children's states (0 unchecked, 1 checked, 2 indeterminate), so an indeterminate child counts as two checked ones | groups G1 holding type T1 with characteristics c1, c2 and G2 holding type T2 with c3, all checked; untick c2, then c3: T1 and G1 become indeterminate (2), G2 unchecked (0), and the "all" box sums 2 over two children and becomes checked (1); the download filter built from a checked "all" is empty, so the download includes the unticked c2 and c3 | a parent is checked only when every child is checked and indeterminate when the children differ or one is indeterminate, so "all" stays indeterminate and the download holds only the ticked characteristics | not executed | StationCheckboxes.AsWrittenAllCheckedAfterUnticking, StationFilters.AsWrittenDownloadsUnchecked | StationCheckboxes.IntendedAllIndeterminateAfterUnticking, StationCheckboxes.AllMeansEveryCharacteristic, StationFilters.DownloadIsSelection |
| app/client/src/components/shared/AddDataWidget/FilePanel.js:375-436 | every layer with features in one upload is named by `getLayerName` against the widget layers as they were when the effect started, so the names given in the same upload are not taken into account | a generate response with two layers that both have features, from a file whose name is not yet used: both layers are added with the file's name as title | each layer of an upload gets a name used neither by an existing layer nor by another layer of the same upload | not executed | FilePanel.NameLayers, FilePanel.SameNameTwice, FilePanel.Panel.AddFeatures | FilePanel.NameLayersDistinct, FilePanel.Panel.AddFeaturesDistinct |
