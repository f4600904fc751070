/** The CyAN (Cyanobacteria Assessment Network) waterbody data behind the
    boundary-toggle layer: the records inside the HUC, the records around it
    (without those already inside), and the fetch-status actions reported to
    the fetched-data store. */
module CyanWaterbodies {
  import opened Wrappers
  import opened BoundariesToggleLayer

  /** Store key of the records inside the HUC. */
  const LocalFetchedDataKey: string := "cyanWaterbodies"
  /** Store key of the surrounding records. */
  const SurroundingFetchedDataKey: string := "surroundingCyanWaterbodies"
  /** `dataKeys`: the attributes that identify a record. */
  const DataKeys: seq<string> := ["FID"]
  const MonitoringType: string := "CyAN"
  const OrgName: string := "Cyanobacteria Assessment Network (CyAN)"

  /** A feature returned by the CyAN waterbodies service. */
  datatype ServiceFeature = ServiceFeature(
    areaSqKm: real, fid: int, gnisName: string, objectId: int, geometry: Geometry)

  /** `CyanWaterbodyAttributes` */
  datatype CyanRecord = CyanRecord(
    areaSqKm: real, fid: int, gnisName: string, geometry: Geometry,
    locationName: string, monitoringType: string, oid: int, orgName: string)

  /** The status of a fetch, as the fetched-data store records it. */
  datatype FetchStatus = Idle | Pending | Success | Failure

  /** A settled service request: on `Success`, the features returned. */
  datatype Response = Response(status: FetchStatus, features: seq<ServiceFeature>)

  /** An action for the fetched-data store. */
  datatype FetchedDataAction =
    | PendingAction(id: string)
    | SuccessAction(id: string, payload: seq<CyanRecord>)
    | StatusAction(status: FetchStatus, id: string)

  function TransformFeature(f: ServiceFeature): CyanRecord {
    CyanRecord(f.areaSqKm, f.fid, f.gnisName, f.geometry, f.gnisName, MonitoringType, f.objectId, OrgName)
  }

  /** `transformServiceData`: one record per feature, in order, named after
      the feature's GNIS name and carrying its object id as `oid`. */
  function TransformServiceData(features: seq<ServiceFeature>): (r: seq<CyanRecord>)
    ensures |r| == |features|
    ensures forall i | 0 <= i < |r| ::
      && r[i].oid == features[i].objectId
      && r[i].fid == features[i].fid
      && r[i].locationName == features[i].gnisName
      && r[i].gnisName == features[i].gnisName
      && r[i].geometry == features[i].geometry
      && r[i].areaSqKm == features[i].areaSqKm
      && r[i].monitoringType == "CyAN"
      && r[i].orgName == "Cyanobacteria Assessment Network (CyAN)"
  {
    seq(|features|, i requires 0 <= i < |features| => TransformFeature(features[i]))
  }

  /** `buildFeatures`: one map feature per record, with the record's
      geometry. */
  function BuildFeatures(data: seq<CyanRecord>): (r: seq<Graphic>)
    ensures |r| == |data|
    ensures forall i | 0 <= i < |r| :: r[i].geometry == data[i].geometry && r[i].oid == data[i].oid
  {
    seq(|data|, i requires 0 <= i < |data| => Graphic(data[i].oid, data[i].geometry))
  }

  /** Whether a record with this `FID` is among the excluded ones. */
  predicate Excluded(fid: int, exclude: seq<CyanRecord>) {
    exists e | e in exclude :: e.fid == fid
  }

  /** `filterData(data, exclude, dataKeys)` for `dataKeys == ['FID']`: the
      records whose `FID` no excluded record has, in their original order. */
  function FilterData(data: seq<CyanRecord>, exclude: seq<CyanRecord>): (r: seq<CyanRecord>)
    ensures forall x | x in r :: x in data && !Excluded(x.fid, exclude)
    ensures forall x | x in data && !Excluded(x.fid, exclude) :: x in r
    ensures |r| <= |data|
  {
    if |data| == 0 then []
    else if Excluded(data[0].fid, exclude) then FilterData(data[1..], exclude)
    else [data[0]] + FilterData(data[1..], exclude)
  }

  /** Filtering works stretch by stretch, so the kept records keep their
      original order. */
  lemma {:induction false} FilterDataConcat(a: seq<CyanRecord>, b: seq<CyanRecord>, exclude: seq<CyanRecord>)
    ensures FilterData(a + b, exclude) == FilterData(a, exclude) + FilterData(b, exclude)
  {
    if |a| == 0 {
      assert a + b == b;
    } else {
      var u := a + b;
      assert u[0] == a[0] && u[1..] == a[1..] + b;
      FilterDataConcat(a[1..], b, exclude);
    }
  }

  /** Filtering against an empty list (the initial HUC data) keeps
      everything, and no surrounding record shares an `FID` with a HUC
      record. */
  lemma {:induction false} FilterDataProperties(data: seq<CyanRecord>, exclude: seq<CyanRecord>)
    ensures exclude == [] ==> FilterData(data, exclude) == data
    ensures forall x, e | x in FilterData(data, exclude) && e in exclude :: x.fid != e.fid
  {
    if |data| > 0 {
      FilterDataProperties(data[1..], exclude);
    }
  }

  /** What `fetchAndTransformData` resolves to: the transformed records,
      filtered when an exclusion list is given, on success; null otherwise. */
  function FetchResult(response: Response, exclude: Option<seq<CyanRecord>>): (r: Option<seq<CyanRecord>>)
    ensures response.status != Success <==> r.None?
    ensures r.Some? && exclude.None? ==> r.value == TransformServiceData(response.features)
    ensures r.Some? && exclude.Some? ==> r.value == FilterData(TransformServiceData(response.features), exclude.value)
  {
    if response.status == Success then
      var transformed := TransformServiceData(response.features);
      Some(if exclude.Some? then FilterData(transformed, exclude.value) else transformed)
    else None
  }

  /** The action reported once the response has settled: `success` with the
      payload that is also returned, or the response's own status. */
  function SettledAction(response: Response, id: string, exclude: Option<seq<CyanRecord>>): (a: FetchedDataAction)
    ensures a.SuccessAction? <==> response.status == Success
    ensures a.SuccessAction? ==> a.id == id && Some(a.payload) == FetchResult(response, exclude)
    ensures a.StatusAction? ==> a.id == id && a.status == response.status
  {
    var r := FetchResult(response, exclude);
    if r.Some? then SuccessAction(id, r.value) else StatusAction(response.status, id)
  }

  /** A reference to the view's extent; the source compares extents by
      identity, which Dafny's object references give. */
  class Extent {
    constructor ()
    {
    }
  }

  /** The state behind `useUpdateData`: the HUC records (`null` after a
      failed fetch), the last extent a surrounding fetch was made for, the
      extents fetched for, and the actions sent to the store. */
  class CyanData {
    var hucData: Option<seq<CyanRecord>>
    var lastExtent: Extent?
    var fetchedExtents: seq<Extent>
    var actions: seq<FetchedDataAction>

    constructor ()
      ensures hucData == Some([]) && lastExtent == null && fetchedExtents == [] && actions == []
    {
      hucData := Some([]);
      lastExtent := null;
      fetchedExtents := [];
      actions := [];
    }

    /** `fetchAndTransformData`: reports `pending`, waits for the response,
        then reports and returns its outcome. */
    method FetchAndTransformData(response: Response, id: string, exclude: Option<seq<CyanRecord>>)
      returns (r: Option<seq<CyanRecord>>)
      modifies this
      ensures r == FetchResult(response, exclude)
      ensures actions == old(actions) + [PendingAction(id), SettledAction(response, id, exclude)]
      ensures hucData == old(hucData) && lastExtent == old(lastExtent) && fetchedExtents == old(fetchedExtents)
    {
      actions := actions + [PendingAction(id)];
      if response.status == Success {
        var transformed := TransformServiceData(response.features);
        var payload := if exclude.Some? then FilterData(transformed, exclude.value) else transformed;
        actions := actions + [SuccessAction(id, payload)];
        r := Some(payload);
      } else {
        actions := actions + [StatusAction(response.status, id)];
        r := None;
      }
    }

    /** The HUC-data effect. Without HUC boundary features the HUC data is
        empty and reported as a success; while services are not loaded
        nothing happens; otherwise the HUC records are fetched. */
    method UpdateHucData(hasHucFeatures: bool, servicesSuccess: bool, response: Response)
      modifies this
      ensures !hasHucFeatures ==>
        hucData == Some([]) && actions == old(actions) + [SuccessAction(LocalFetchedDataKey, [])]
      ensures hasHucFeatures && !servicesSuccess ==>
        hucData == old(hucData) && actions == old(actions)
      ensures hasHucFeatures && servicesSuccess ==>
        && hucData == FetchResult(response, None)
        && actions == old(actions) + [PendingAction(LocalFetchedDataKey), SettledAction(response, LocalFetchedDataKey, None)]
      ensures lastExtent == old(lastExtent) && fetchedExtents == old(fetchedExtents)
    {
      if !hasHucFeatures {
        hucData := Some([]);
        actions := actions + [SuccessAction(LocalFetchedDataKey, [])];
        return;
      }
      if !servicesSuccess {
        return;
      }
      var data := FetchAndTransformData(response, LocalFetchedDataKey, None);
      hucData := data;
    }

    /** `updateSurroundingData`: nothing happens while services are not
        loaded, without a view, or when the view's extent is the one last
        fetched for; otherwise the extent is recorded and the surrounding
        records are fetched without those already inside the HUC. */
    method UpdateSurroundingData(servicesSuccess: bool, viewExtent: Option<Extent>, response: Response)
      modifies this
      ensures !servicesSuccess || viewExtent.None? || viewExtent.value == old(lastExtent) ==>
        lastExtent == old(lastExtent) && fetchedExtents == old(fetchedExtents) && actions == old(actions)
      ensures servicesSuccess && viewExtent.Some? && viewExtent.value != old(lastExtent) ==>
        && lastExtent == viewExtent.value
        && fetchedExtents == old(fetchedExtents) + [viewExtent.value]
        && actions == old(actions) + [PendingAction(SurroundingFetchedDataKey),
                                      SettledAction(response, SurroundingFetchedDataKey, hucData)]
      ensures hucData == old(hucData)
    {
      if !servicesSuccess {
        return;
      }
      if viewExtent.None? {
        return;
      }
      if viewExtent.value == lastExtent {
        return;
      }
      lastExtent := viewExtent.value;
      fetchedExtents := fetchedExtents + [viewExtent.value];
      var _ := FetchAndTransformData(response, SurroundingFetchedDataKey, hucData);
    }

    /** Two surrounding updates for the same extent fetch at most once. */
    method UpdateSurroundingTwice(servicesSuccess: bool, viewExtent: Option<Extent>, first: Response, second: Response)
      modifies this
      ensures |fetchedExtents| <= |old(fetchedExtents)| + 1
      ensures viewExtent.Some? ==> lastExtent == viewExtent.value || lastExtent == old(lastExtent)
    {
      UpdateSurroundingData(servicesSuccess, viewExtent, first);
      UpdateSurroundingData(servicesSuccess, viewExtent, second);
    }
  }
}
