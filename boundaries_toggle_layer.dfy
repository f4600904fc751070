/** The boundary-toggle layer: a base layer of features, masked so that the
    features inside the selected HUC are always shown while those around it
    are shown or hidden through the opacity of a "surrounding" mask layer.
    The ArcGIS layers and watchers are reduced to the fields the controller
    reads and writes. */
module BoundariesToggleLayer {
  import opened Wrappers

  /** Opacity of the surrounding mask when surrounding features are hidden. */
  const SurroundingsHiddenOpacity: real := 0.0
  /** Opacity of the surrounding mask when surrounding features are shown. */
  const SurroundingsVisibleOpacity: real := 0.8
  /** From this map scale on (zoomed out this far) only HUC data is loaded. */
  const MinScale: real := 577791.0

  /** A map geometry, known only by identity; spatial tests on it are
      parameters of the operations that need them. */
  datatype Geometry = Geometry(id: nat)

  /** A map feature. */
  datatype Graphic = Graphic(oid: int, geometry: Geometry)

  /** `BoundariesFilterType`: load the data inside the HUC, or inside the
      view's bounding box. */
  datatype FilterType = Huc | BBox

  /** The refresh issued when the view becomes stationary. `visible` is the
      layer's entry in the surroundings-visibility map, `None` when it has
      no entry. */
  function RefreshFilter(scale: real, visible: Option<bool>): (f: FilterType)
    ensures f == Huc <==> (scale >= MinScale || visible == Some(false))
  {
    if scale >= MinScale || visible == Some(false) then Huc else BBox
  }

  /** Zooming out never turns a HUC refresh into a bounding-box one, and a
      layer without a visibility entry gets a bounding-box refresh below the
      threshold. */
  lemma RefreshFilterMonotone(scale: real, larger: real, visible: Option<bool>)
    requires scale <= larger
    ensures RefreshFilter(scale, visible) == Huc ==> RefreshFilter(larger, visible) == Huc
    ensures scale < MinScale ==> RefreshFilter(scale, None) == BBox
    ensures scale < MinScale ==> RefreshFilter(scale, Some(true)) == BBox
  {
  }

  /** Whether the mask's opacity means surrounding features are shown: only
      the exact visible opacity counts. */
  predicate SurroundingsShown(opacity: real) {
    opacity == SurroundingsVisibleOpacity
  }

  /** The opacity `toggleSurroundings` leaves behind. */
  function ToggledOpacity(opacity: real): (r: real)
    ensures r == SurroundingsHiddenOpacity || r == SurroundingsVisibleOpacity
    ensures SurroundingsShown(r) <==> !SurroundingsShown(opacity)
  {
    if SurroundingsShown(opacity) then SurroundingsHiddenOpacity else SurroundingsVisibleOpacity
  }

  /** Toggling twice restores a hidden or shown mask, and only those: any
      other opacity is hidden after two toggles. */
  lemma ToggleTwice(opacity: real)
    ensures opacity == SurroundingsHiddenOpacity || opacity == SurroundingsVisibleOpacity
      ==> ToggledOpacity(ToggledOpacity(opacity)) == opacity
    ensures opacity != SurroundingsHiddenOpacity && opacity != SurroundingsVisibleOpacity
      ==> ToggledOpacity(ToggledOpacity(opacity)) == SurroundingsHiddenOpacity
  {
  }

  /** Removes from `s` every feature listed in `deletes`, keeping the order
      of the rest. */
  function Remove(s: seq<Graphic>, deletes: seq<Graphic>): (r: seq<Graphic>)
    ensures forall g :: g in r <==> g in s && g !in deletes
    ensures forall g | g !in deletes :: multiset(r)[g] == multiset(s)[g]
    ensures |r| <= |s|
  {
    if |s| == 0 then []
    else
      assert s == [s[0]] + s[1..];
      if s[0] in deletes then Remove(s[1..], deletes)
      else [s[0]] + Remove(s[1..], deletes)
  }

  /** Removal works stretch by stretch: the result for two stretches is
      the results for each, one after the other, so the kept features keep
      their old order. */
  lemma {:induction false} RemoveConcat(s: seq<Graphic>, t: seq<Graphic>, deletes: seq<Graphic>)
    ensures Remove(s + t, deletes) == Remove(s, deletes) + Remove(t, deletes)
  {
    if |s| == 0 {
      assert s + t == t;
    } else {
      var u := s + t;
      assert u[0] == s[0] && u[1..] == s[1..] + t;
      RemoveConcat(s[1..], t, deletes);
    }
  }

  /** One feature is kept exactly when it is not deleted. */
  lemma RemoveOne(g: Graphic, deletes: seq<Graphic>)
    ensures Remove([g], deletes) == if g in deletes then [] else [g]
  {
    assert [g][1..] == [];
  }

  /** Deleting every feature a layer holds leaves it empty. */
  lemma {:induction false} RemoveEverything(s: seq<Graphic>, deletes: seq<Graphic>)
    requires forall g | g in s :: g in deletes
    ensures Remove(s, deletes) == []
  {
    if |s| > 0 {
      RemoveEverything(s[1..], deletes);
    }
  }

  /** A client-side feature layer. */
  class FeatureLayer {
    var features: seq<Graphic>

    constructor (initial: seq<Graphic>)
      ensures features == initial
    {
      features := initial;
    }

    /** `queryFeatures()`: every feature the layer holds. */
    method QueryFeatures() returns (fs: seq<Graphic>)
      ensures fs == features
    {
      fs := features;
    }

    /** `applyEdits`: the deletions, then the additions. */
    method ApplyEdits(adds: seq<Graphic>, deletes: seq<Graphic>)
      modifies this
      ensures features == Remove(old(features), deletes) + adds
    {
      features := Remove(features, deletes) + adds;
    }
  }

  /** The features `updateFeatureLayer` adds: the supplied list, or none
      when it is omitted or null (an empty list is supplied, and adds
      nothing). */
  function Additions(features: Option<seq<Graphic>>): seq<Graphic> {
    if features.Some? then features.value else []
  }

  /** `updateFeatureLayer`: replaces the layer's content by the supplied
      features, by deleting everything it holds and adding them; a null
      layer is left alone. */
  method UpdateFeatureLayer(layer: FeatureLayer?, features: Option<seq<Graphic>>)
    modifies layer
    ensures layer != null ==> layer.features == Additions(features)
  {
    if layer == null {
      return;
    }
    var featureSet := layer.QueryFeatures();
    RemoveEverything(featureSet, featureSet);
    layer.ApplyEdits(Additions(features), featureSet);
  }

  /** The controller of one boundary-toggle layer: the surrounding mask's
      opacity, the visibility actions it dispatches, the data refreshes it
      requests and whether its stationary watcher is registered. */
  class ToggleLayer {
    /** `parentLayer.resetHidesSurroundings` */
    const resetHidesSurroundings: bool
    /** The base layer holding the features; null when it was not built. */
    const baseLayer: FeatureLayer?
    /** `surroundingLayer.opacity` */
    var surroundingOpacity: real
    /** Payloads of the `surroundingsVibility` actions dispatched, in order. */
    var visibilityActions: seq<bool>
    /** Arguments of the `updateData` calls made, in order. */
    var refreshes: seq<FilterType>
    /** `parentLayer.hasHandles(handleGroupKey)` */
    var registered: bool

    /** The surrounding mask layer starts out hidden. */
    constructor (resetHides: bool, base: FeatureLayer?)
      ensures surroundingOpacity == SurroundingsHiddenOpacity && !SurroundingsShown(surroundingOpacity)
      ensures resetHidesSurroundings == resetHides && baseLayer == base
      ensures visibilityActions == [] && refreshes == [] && !registered
    {
      resetHidesSurroundings := resetHides;
      baseLayer := base;
      surroundingOpacity := SurroundingsHiddenOpacity;
      visibilityActions := [];
      refreshes := [];
      registered := false;
    }

    /** `toggleSurroundings`: flips the mask between shown and hidden and
        tells the layer store whether surroundings are now visible. */
    method ToggleSurroundings()
      modifies this
      ensures surroundingOpacity == ToggledOpacity(old(surroundingOpacity))
      ensures visibilityActions == old(visibilityActions) + [!SurroundingsShown(old(surroundingOpacity))]
      ensures visibilityActions[|visibilityActions| - 1] == SurroundingsShown(surroundingOpacity)
      ensures refreshes == old(refreshes) && registered == old(registered)
    {
      var visible := surroundingOpacity == SurroundingsVisibleOpacity;
      surroundingOpacity := if visible then SurroundingsHiddenOpacity else SurroundingsVisibleOpacity;
      visibilityActions := visibilityActions + [!visible];
    }

    /** `resetLayer`: without a base layer nothing happens; otherwise the
        mask is hidden (and `false` dispatched) when the layer asks for it,
        and the base layer is emptied. */
    method ResetLayer()
      modifies this, baseLayer
      ensures baseLayer == null ==> surroundingOpacity == old(surroundingOpacity) && visibilityActions == old(visibilityActions)
      ensures baseLayer != null ==> baseLayer.features == []
      ensures baseLayer != null && resetHidesSurroundings ==>
        surroundingOpacity == SurroundingsHiddenOpacity && visibilityActions == old(visibilityActions) + [false]
      ensures baseLayer != null && !resetHidesSurroundings ==>
        surroundingOpacity == old(surroundingOpacity) && visibilityActions == old(visibilityActions)
      ensures refreshes == old(refreshes) && registered == old(registered)
    {
      if baseLayer == null {
        return;
      }
      if resetHidesSurroundings {
        surroundingOpacity := SurroundingsHiddenOpacity;
        visibilityActions := visibilityActions + [false];
      }
      UpdateFeatureLayer(baseLayer, None);
    }

    /** The effect that sets the data updates up. Once registered it does
        nothing. Otherwise it asks for one HUC refresh while the view is not
        ready, and registers the stationary watcher, which fires at once when
        the view is already stationary. */
    method RegisterUpdates(viewReady: bool, stationary: bool, scale: real, visible: Option<bool>)
      modifies this
      ensures old(registered) ==> refreshes == old(refreshes)
      ensures !old(registered) ==>
        refreshes == old(refreshes)
          + (if stationary then [RefreshFilter(scale, visible)] else [])
          + (if viewReady then [] else [Huc])
      ensures registered
      ensures surroundingOpacity == old(surroundingOpacity) && visibilityActions == old(visibilityActions)
    {
      if registered {
        return;
      }
      if stationary {
        refreshes := refreshes + [RefreshFilter(scale, visible)];
      }
      if !viewReady {
        refreshes := refreshes + [Huc];
      }
      registered := true;
    }

    /** The view became stationary: a registered watcher requests the
        refresh `RefreshFilter` picks. */
    method OnStationary(scale: real, visible: Option<bool>)
      modifies this
      ensures refreshes == old(refreshes) + (if registered then [RefreshFilter(scale, visible)] else [])
      ensures registered == old(registered)
      ensures surroundingOpacity == old(surroundingOpacity) && visibilityActions == old(visibilityActions)
    {
      if registered {
        refreshes := refreshes + [RefreshFilter(scale, visible)];
      }
    }

    /** The effect's cleanup: `removeHandles(handleGroupKey)`. */
    method Cleanup()
      modifies this
      ensures !registered
      ensures refreshes == old(refreshes)
      ensures surroundingOpacity == old(surroundingOpacity) && visibilityActions == old(visibilityActions)
    {
      registered := false;
    }
  }

  /** The features of `features` that intersect the HUC polygon; none
      without a polygon. */
  function LocalSelection(features: seq<Graphic>, hucPolygon: Option<Geometry>,
                          intersects: (Geometry, Geometry) -> bool): (r: seq<Graphic>)
    ensures forall g :: g in r <==> g in features && hucPolygon.Some? && intersects(hucPolygon.value, g.geometry)
    ensures |r| <= |features|
  {
    if |features| == 0 || hucPolygon.None? then []
    else if intersects(hucPolygon.value, features[0].geometry) then
      [features[0]] + LocalSelection(features[1..], hucPolygon, intersects)
    else LocalSelection(features[1..], hucPolygon, intersects)
  }

  /** The state of `useAllFeatures` and `useLocalFeatures`: the complete
      feature set, the features inside the HUC, and a dirty flag for each. */
  class FeatureSets {
    var features: seq<Graphic>
    var featuresDirty: bool
    var localFeatures: seq<Graphic>
    var localFeaturesDirty: bool

    constructor ()
      ensures features == [] && featuresDirty && localFeatures == [] && localFeaturesDirty
    {
      features := [];
      featuresDirty := true;
      localFeatures := [];
      localFeaturesDirty := true;
    }

    /** The complete-dataset effect. `built` is `buildFeatures(data)`, or
        `None` when `transformData()` gave null: the set then stays dirty and
        keeps its old features. */
    method UpdateAllFeatures(built: Option<seq<Graphic>>)
      modifies this
      ensures featuresDirty <==> built.None?
      ensures features == if built.Some? then built.value else old(features)
      ensures localFeatures == old(localFeatures) && localFeaturesDirty == old(localFeaturesDirty)
    {
      featuresDirty := true;
      if built.None? {
        return;
      }
      features := built.value;
      featuresDirty := false;
    }

    /** The `huc12` effect: an empty HUC marks the local features dirty; a
        non-empty one changes nothing. */
    method Huc12Changed(huc12: string)
      modifies this
      ensures localFeaturesDirty == (old(localFeaturesDirty) || huc12 == "")
      ensures features == old(features) && featuresDirty == old(featuresDirty)
      ensures localFeatures == old(localFeatures)
    {
      if huc12 != "" {
        return;
      }
      localFeaturesDirty := true;
    }

    /** The local-features effect: recomputes the local features only when
        they are dirty and the complete set is clean, and then marks them
        clean. */
    method UpdateLocalFeatures(hucPolygon: Option<Geometry>, intersects: (Geometry, Geometry) -> bool)
      modifies this
      ensures old(localFeaturesDirty) && !featuresDirty ==>
        localFeatures == LocalSelection(features, hucPolygon, intersects) && !localFeaturesDirty
      ensures !(old(localFeaturesDirty) && !featuresDirty) ==>
        localFeatures == old(localFeatures) && localFeaturesDirty == old(localFeaturesDirty)
      ensures features == old(features) && featuresDirty == old(featuresDirty)
    {
      if !localFeaturesDirty || featuresDirty {
        return;
      }
      localFeatures := LocalSelection(features, hucPolygon, intersects);
      localFeaturesDirty := false;
    }
  }
}
