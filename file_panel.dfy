/** The file panel of the add-data widget: a dropped file is classified by
    its extension, sent to the ArcGIS analyze and generate services, and the
    layers of the response are added to the map under names that do not
    collide with the widget's existing layers. The services, the map and
    the file reader are reduced to the responses they deliver. */
module FilePanel {
  import opened Wrappers
  import opened JsStrings

  // ---------------------------------------------------------------------
  // getLayerName

  /** A layer already added through the widget; only its title is read. */
  datatype WidgetLayer = WidgetLayer(title: string)

  /** The titles of the layers, in order. */
  function Titles(layers: seq<WidgetLayer>): (ts: seq<string>)
    ensures |ts| == |layers|
    ensures forall i | 0 <= i < |layers| :: ts[i] == layers[i].title
  {
    seq(|layers|, i requires 0 <= i < |layers| => layers[i].title)
  }

  /** The name tried after `k` collisions: the desired name itself, then
      `"<desired> (k)"`. */
  function Candidate(desiredName: string, k: nat): string {
    if k == 0 then desiredName else desiredName + " (" + Decimal(k) + ")"
  }

  /** Different collision counts give different names. */
  lemma CandidatesDistinct(desiredName: string, j: nat, k: nat)
    requires j != k
    ensures Candidate(desiredName, j) != Candidate(desiredName, k)
  {
    if j > 0 && k > 0 && Candidate(desiredName, j) == Candidate(desiredName, k) {
      var a, b := Candidate(desiredName, j), Candidate(desiredName, k);
      var n := |desiredName| + 2;
      assert |Decimal(j)| == |Decimal(k)|;
      assert a[n..|a| - 1] == Decimal(j);
      assert b[n..|b| - 1] == Decimal(k);
      DecimalInjective(j, k);
    }
  }

  /** The names tried before the `k`-th. */
  ghost function Tried(desiredName: string, k: nat): set<string> {
    if k == 0 then {} else Tried(desiredName, k - 1) + {Candidate(desiredName, k - 1)}
  }

  /** Only candidates numbered below `k` were tried. */
  lemma {:induction false} TriedAreEarlier(desiredName: string, k: nat, x: string)
    requires x in Tried(desiredName, k)
    ensures exists j: nat :: j < k && x == Candidate(desiredName, j)
  {
    if x != Candidate(desiredName, k - 1) {
      TriedAreEarlier(desiredName, k - 1, x);
    }
  }

  /** Every candidate numbered below `k` was tried. */
  lemma {:induction false} TriedHasEarlier(desiredName: string, k: nat)
    ensures forall j: nat | j < k :: Candidate(desiredName, j) in Tried(desiredName, k)
  {
    if k > 0 {
      TriedHasEarlier(desiredName, k - 1);
    }
  }

  /** The `k` names tried are distinct and do not include the `k`-th. */
  lemma {:induction false} TriedCount(desiredName: string, k: nat)
    ensures |Tried(desiredName, k)| == k
    ensures Candidate(desiredName, k) !in Tried(desiredName, k)
  {
    if Candidate(desiredName, k) in Tried(desiredName, k) {
      TriedAreEarlier(desiredName, k, Candidate(desiredName, k));
      var j: nat :| j < k && Candidate(desiredName, k) == Candidate(desiredName, j);
      CandidatesDistinct(desiredName, j, k);
    }
    if k > 0 {
      TriedCount(desiredName, k - 1);
    }
  }

  /** `name` is what `getLayerName` returns: the first candidate not among
      the titles. */
  ghost predicate IsLayerName(titles: seq<string>, desiredName: string, name: string) {
    exists k: nat :: name == Candidate(desiredName, k) && name !in titles
      && forall j: nat | j < k :: Candidate(desiredName, j) in titles
  }

  /** `getLayerName`: collects the titles in use, then counts collisions
      until a candidate is free. */
  method GetLayerName(layers: seq<WidgetLayer>, desiredName: string) returns (newName: string)
    ensures IsLayerName(Titles(layers), desiredName, newName)
    ensures newName !in Titles(layers)
    ensures desiredName !in Titles(layers) ==> newName == desiredName
  {
    var usedNames: seq<string> := [];
    var i := 0;
    while i < |layers|
      invariant i <= |layers|
      invariant usedNames == Titles(layers[..i])
    {
      usedNames := usedNames + [layers[i].title];
      i := i + 1;
    }
    assert layers[..i] == layers;
    ghost var used := set x | x in usedNames;
    var duplicateCount: nat := 0;
    newName := desiredName;
    while newName in usedNames
      invariant newName == Candidate(desiredName, duplicateCount)
      invariant Tried(desiredName, duplicateCount) <= used
      decreases |used| - duplicateCount
    {
      TriedCount(desiredName, duplicateCount);
      assert newName in used;
      ProperSubsetSmaller(Tried(desiredName, duplicateCount), used);
      duplicateCount := duplicateCount + 1;
      newName := desiredName + " (" + Decimal(duplicateCount) + ")";
      assert newName == Candidate(desiredName, duplicateCount);
    }
    TriedHasEarlier(desiredName, duplicateCount);
    assert IsLayerName(usedNames, desiredName, newName);
  }

  lemma ProperSubsetSmaller<T>(a: set<T>, b: set<T>)
    requires a < b
    ensures |a| < |b|
  {
    var x :| x in b && x !in a;
    SubsetNotLarger(a, b - {x});
  }

  lemma {:induction false} SubsetNotLarger<T>(a: set<T>, b: set<T>)
    requires a <= b
    ensures |a| <= |b|
    decreases a
  {
    if a != {} {
      var x :| x in a;
      SubsetNotLarger(a - {x}, b - {x});
    }
  }

  /** At most one name satisfies the description, so two calls with the same
      titles and desired name agree. */
  lemma LayerNameUnique(titles: seq<string>, desiredName: string, a: string, b: string)
    requires IsLayerName(titles, desiredName, a) && IsLayerName(titles, desiredName, b)
    ensures a == b
  {
    var ka: nat :| a == Candidate(desiredName, ka) && a !in titles
      && forall j: nat | j < ka :: Candidate(desiredName, j) in titles;
    var kb: nat :| b == Candidate(desiredName, kb) && b !in titles
      && forall j: nat | j < kb :: Candidate(desiredName, j) in titles;
  }

  /** A name taken once is numbered from 1. */
  lemma FirstDuplicate(titles: seq<string>, desiredName: string, name: string)
    requires IsLayerName(titles, desiredName, name)
    requires desiredName in titles && Candidate(desiredName, 1) !in titles
    ensures name == desiredName + " (1)"
  {
    var k: nat :| name == Candidate(desiredName, k) && name !in titles
      && forall j: nat | j < k :: Candidate(desiredName, j) in titles;
    assert k == 1;
    assert Decimal(1) == "1";
  }

  // ---------------------------------------------------------------------
  // onDrop: file-type detection

  /** The extension checks of `onDrop`, in the order they are made. */
  const FileTypeRules: seq<(string, string)> :=
    [(".zip", "shapefile"), (".csv", "csv"), (".kml", "kml"), (".geojson", "geojson"), (".geo.json", "geojson"), (".gpx", "gpx")]

  /** The type given by the last of the first `n` checks that matches,
      `""` when none does. */
  function LastMatch(name: string, n: nat): (t: string)
    requires n <= |FileTypeRules|
  {
    if n == 0 then ""
    else if EndsWith(name, FileTypeRules[n - 1].0) then FileTypeRules[n - 1].1
    else LastMatch(name, n - 1)
  }

  /** The type `onDrop` settles on: the last matching check wins. */
  function FileTypeOf(name: string): string {
    LastMatch(name, |FileTypeRules|)
  }

  /** The sequence of `if`s that reassign `fileType`. */
  method DetectFileType(name: string) returns (fileType: string)
    ensures fileType == FileTypeOf(name)
  {
    fileType := "";
    if EndsWith(name, ".zip") { fileType := "shapefile"; }
    assert fileType == LastMatch(name, 1);
    if EndsWith(name, ".csv") { fileType := "csv"; }
    assert fileType == LastMatch(name, 2);
    if EndsWith(name, ".kml") { fileType := "kml"; }
    assert fileType == LastMatch(name, 3);
    if EndsWith(name, ".geojson") { fileType := "geojson"; }
    assert fileType == LastMatch(name, 4);
    if EndsWith(name, ".geo.json") { fileType := "geojson"; }
    assert fileType == LastMatch(name, 5);
    if EndsWith(name, ".gpx") { fileType := "gpx"; }
  }

  /** A name ending in `suffix` has its characters at the end. */
  lemma SuffixChar(name: string, suffix: string, m: nat)
    requires 1 <= m <= |suffix|
    ensures EndsWith(name, suffix) ==> m <= |name| && name[|name| - m] == suffix[|suffix| - m]
  {
    if EndsWith(name, suffix) {
      assert name[|name| - |suffix|..][|suffix| - m] == name[|name| - m];
    }
  }

  /** The character `m` places from the end of the `i`-th extension. */
  function ExtensionChar(i: nat, m: nat): char
    requires i < |FileTypeRules| && 1 <= m <= |FileTypeRules[i].0|
  {
    FileTypeRules[i].0[|FileTypeRules[i].0| - m]
  }

  /** Any two extensions differ in their last character, except `.geojson`
      and `.geo.json`, which differ five places from the end. */
  lemma ExtensionsDiffer(i: nat, j: nat)
    requires i < j < |FileTypeRules|
    ensures var m := if i == 3 && j == 4 then 5 else 1;
      m <= |FileTypeRules[i].0| && m <= |FileTypeRules[j].0| && ExtensionChar(i, m) != ExtensionChar(j, m)
  {
    assert ExtensionChar(0, 1) == 'p' && ExtensionChar(1, 1) == 'v' && ExtensionChar(2, 1) == 'l';
    assert ExtensionChar(3, 1) == 'n' && ExtensionChar(4, 1) == 'n' && ExtensionChar(5, 1) == 'x';
    assert ExtensionChar(3, 5) == 'o' && ExtensionChar(4, 5) == '.';
  }

  /** No name ends with two of the extensions. */
  lemma SuffixesExclusive(name: string, i: nat, j: nat)
    requires i < j < |FileTypeRules|
    ensures !(EndsWith(name, FileTypeRules[i].0) && EndsWith(name, FileTypeRules[j].0))
  {
    ExtensionsDiffer(i, j);
    var m := if i == 3 && j == 4 then 5 else 1;
    SuffixChar(name, FileTypeRules[i].0, m);
    SuffixChar(name, FileTypeRules[j].0, m);
  }

  /** Because the extensions exclude each other, a name ending in one of
      them gets that extension's type, `.geo.json` included. */
  lemma {:induction false} FileTypeByExtension(name: string, i: nat)
    requires i < |FileTypeRules| && EndsWith(name, FileTypeRules[i].0)
    ensures FileTypeOf(name) == FileTypeRules[i].1
  {
    forall j | i < j < |FileTypeRules| ensures !EndsWith(name, FileTypeRules[j].0) {
      SuffixesExclusive(name, i, j);
    }
    LastMatchAbove(name, |FileTypeRules|, i);
  }

  lemma {:induction false} LastMatchAbove(name: string, n: nat, i: nat)
    requires i < n <= |FileTypeRules| && EndsWith(name, FileTypeRules[i].0)
    requires forall j | i < j < n :: !EndsWith(name, FileTypeRules[j].0)
    ensures LastMatch(name, n) == FileTypeRules[i].1
  {
    if n - 1 > i {
      LastMatchAbove(name, n - 1, i);
    }
  }

  /** A name with none of the extensions has no type. */
  lemma {:induction false} NoExtensionNoType(name: string, n: nat)
    requires n <= |FileTypeRules|
    requires forall i | 0 <= i < n :: !EndsWith(name, FileTypeRules[i].0)
    ensures LastMatch(name, n) == ""
  {
    if n > 0 {
      NoExtensionNoType(name, n - 1);
    }
  }

  // ---------------------------------------------------------------------
  // Upload status

  /** `UploadStatusType`; `Idle` is the initial `''`. */
  datatype UploadStatus = Idle | Fetching | Success | Failure | InvalidFileType | ImportError | NoData | FileReadError

  /** A file of the drop; `""` stands for a missing or empty name. */
  datatype DroppedFile = DroppedFile(name: string)

  /** The `file` state: the dropped file's name and type, the name of the
      file last sent to the generate service, and whether analyze ran. */
  datatype FileState = FileState(name: string, esriFileType: string, lastFileName: string, analyzeCalled: bool)

  /** A layer of a generate response: how many features it holds (a missing
      feature list counts as none). */
  datatype ResponseLayer = ResponseLayer(featureCount: nat)

  /** A generate response: whether it reports an error, and its
      `featureCollection.layers` when present. */
  datatype GenerateResponse = GenerateResponse(error: bool, layers: Option<seq<ResponseLayer>>)

  /** The number of layers that hold features. */
  function WithFeatures(ls: seq<ResponseLayer>): nat {
    if |ls| == 0 then 0
    else WithFeatures(ls[..|ls| - 1]) + (if ls[|ls| - 1].featureCount > 0 then 1 else 0)
  }

  /** The panel's state and the widget layers it adds to. */
  class Panel {
    var file: Option<FileState>
    var uploadStatus: UploadStatus
    var analyzeResponse: bool
    var generateResponse: Option<GenerateResponse>
    var featuresAdded: bool
    var widgetLayers: seq<WidgetLayer>

    /** The initial state of the panel. */
    constructor (widgetLayers: seq<WidgetLayer>)
      ensures file == None && uploadStatus == Idle && !analyzeResponse
      ensures generateResponse == None && !featuresAdded
      ensures this.widgetLayers == widgetLayers
    {
      file := None;
      uploadStatus := Idle;
      analyzeResponse := false;
      generateResponse := None;
      featuresAdded := false;
      this.widgetLayers := widgetLayers;
    }

    /** `onDrop`: a drop without files, or whose first file has no name,
        changes nothing. Otherwise the first file is stored with its type,
        the responses and `featuresAdded` are reset and the status becomes
        `fetching`, or `invalid-file-type` when no extension matched. */
    method OnDrop(acceptedFiles: Option<seq<DroppedFile>>)
      modifies this
      ensures acceptedFiles.None? || |acceptedFiles.value| == 0 || acceptedFiles.value[0].name == "" ==>
        && file == old(file) && uploadStatus == old(uploadStatus) && analyzeResponse == old(analyzeResponse)
        && generateResponse == old(generateResponse) && featuresAdded == old(featuresAdded)
      ensures acceptedFiles.Some? && |acceptedFiles.value| > 0 && acceptedFiles.value[0].name != "" ==>
        var name := acceptedFiles.value[0].name;
        && file == Some(FileState(name, FileTypeOf(name), "", false))
        && !analyzeResponse && generateResponse == None && !featuresAdded
        && uploadStatus == (if FileTypeOf(name) == "" then InvalidFileType else Fetching)
      ensures widgetLayers == old(widgetLayers)
    {
      if acceptedFiles.None? || |acceptedFiles.value| == 0 || acceptedFiles.value[0].name == "" {
        return;
      }
      var name := acceptedFiles.value[0].name;
      var fileType := DetectFileType(name);
      file := Some(FileState(name, fileType, "", false));
      uploadStatus := Fetching;
      analyzeResponse := false;
      generateResponse := None;
      featuresAdded := false;
      if fileType == "" {
        uploadStatus := InvalidFileType;
        return;
      }
    }

    /** The analyze effect: only a CSV file not yet analyzed, and not the
        file last sent, is analyzed; the flag is set before the request. */
    method StartAnalyze() returns (requested: bool)
      modifies this
      ensures requested <==> (old(file).Some? && old(file).value.esriFileType == "csv"
        && !old(file).value.analyzeCalled && old(file).value.name != old(file).value.lastFileName)
      ensures requested ==> file == Some(old(file).value.(analyzeCalled := true))
      ensures !requested ==> file == old(file)
      ensures uploadStatus == old(uploadStatus) && analyzeResponse == old(analyzeResponse)
      ensures generateResponse == old(generateResponse) && featuresAdded == old(featuresAdded)
      ensures widgetLayers == old(widgetLayers)
    {
      if file.None? || file.value.esriFileType == "" || file.value.analyzeCalled {
        return false;
      }
      if file.value.name == file.value.lastFileName || file.value.esriFileType != "csv" {
        return false;
      }
      file := Some(file.value.(analyzeCalled := true));
      return true;
    }

    /** The generate effect: with a map, a typed file that was not the last
        one sent is generated, except KML (read separately) and CSV still
        waiting for its analyze response; its name is recorded first. */
    method StartGenerate(hasMap: bool) returns (requested: bool)
      modifies this
      ensures requested <==> (hasMap && old(file).Some? && old(file).value.esriFileType != ""
        && old(file).value.name != old(file).value.lastFileName
        && old(file).value.esriFileType != "kml"
        && (old(file).value.esriFileType == "csv" ==> old(analyzeResponse)))
      ensures requested ==> file == Some(old(file).value.(lastFileName := old(file).value.name))
      ensures !requested ==> file == old(file)
      ensures uploadStatus == old(uploadStatus) && analyzeResponse == old(analyzeResponse)
      ensures generateResponse == old(generateResponse) && featuresAdded == old(featuresAdded)
      ensures widgetLayers == old(widgetLayers)
    {
      if !hasMap || file.None? || file.value.esriFileType == "" || file.value.name == file.value.lastFileName {
        return false;
      }
      if file.value.esriFileType == "kml" {
        return false;
      }
      if file.value.esriFileType == "csv" && !analyzeResponse {
        return false;
      }
      file := Some(file.value.(lastFileName := file.value.name));
      return true;
    }

    /** The KML effect: with a map, a KML file that was not the last one
        sent is read; it records nothing, so it reads again on every change
        of the file state until a different file is sent. */
    method StartKml(hasMap: bool) returns (requested: bool)
      ensures requested <==> (hasMap && file.Some? && file.value.esriFileType == "kml"
        && file.value.name != file.value.lastFileName)
    {
      requested := file.Some? && file.value.esriFileType != "" && hasMap && file.value.esriFileType == "kml"
        && file.value.name != file.value.lastFileName;
    }

    /** The KML service answered: its response is stored without the
        error check the generate service gets. */
    method KmlResolved(res: GenerateResponse)
      modifies this
      ensures generateResponse == Some(res)
      ensures file == old(file) && uploadStatus == old(uploadStatus)
      ensures analyzeResponse == old(analyzeResponse) && featuresAdded == old(featuresAdded)
      ensures widgetLayers == old(widgetLayers)
    {
      generateResponse := Some(res);
    }

    /** The analyze service answered. */
    method AnalyzeResolved()
      modifies this
      ensures analyzeResponse
      ensures file == old(file) && uploadStatus == old(uploadStatus)
      ensures generateResponse == old(generateResponse) && featuresAdded == old(featuresAdded)
      ensures widgetLayers == old(widgetLayers)
    {
      analyzeResponse := true;
    }

    /** The generate service answered: a response that
        reports an error gives `import-error` and is not stored. */
    method GenerateResolved(res: GenerateResponse)
      modifies this
      ensures res.error ==> uploadStatus == ImportError && generateResponse == old(generateResponse)
      ensures !res.error ==> uploadStatus == old(uploadStatus) && generateResponse == Some(res)
      ensures file == old(file) && analyzeResponse == old(analyzeResponse) && featuresAdded == old(featuresAdded)
      ensures widgetLayers == old(widgetLayers)
    {
      if res.error {
        uploadStatus := ImportError;
        return;
      }
      generateResponse := Some(res);
    }

    /** A request was rejected. */
    method RequestFailed()
      modifies this
      ensures uploadStatus == Failure
      ensures file == old(file) && analyzeResponse == old(analyzeResponse)
      ensures generateResponse == old(generateResponse) && featuresAdded == old(featuresAdded)
      ensures widgetLayers == old(widgetLayers)
    {
      uploadStatus := Failure;
    }

    /** The KML file could not be read. */
    method KmlReadFailed()
      modifies this
      ensures uploadStatus == FileReadError
      ensures file == old(file) && analyzeResponse == old(analyzeResponse)
      ensures generateResponse == old(generateResponse) && featuresAdded == old(featuresAdded)
      ensures widgetLayers == old(widgetLayers)
    {
      uploadStatus := FileReadError;
    }

    /** The effect that adds the generated layers: nothing happens without a
        map, a typed file and a response, or once features were added; a
        response without layers gives `no-data`. Otherwise every layer with
        features is added under a name from `getLayerName`, each computed
        against the widget layers as they were when the effect started,
        and the status becomes `success`. */
    method AddFeatures(hasMap: bool) returns (added: seq<string>)
      modifies this
      ensures var proceed := hasMap && old(file).Some? && old(file).value.esriFileType != ""
        && !old(featuresAdded) && old(generateResponse).Some?;
        && (!proceed ==> (added == [] && uploadStatus == old(uploadStatus) && featuresAdded == old(featuresAdded)
             && widgetLayers == old(widgetLayers)))
        && (proceed ==> var layers := old(generateResponse).value.layers;
             if layers.None? || |layers.value| == 0 then
               added == [] && uploadStatus == NoData && featuresAdded == old(featuresAdded) && widgetLayers == old(widgetLayers)
             else
               && uploadStatus == Success && featuresAdded
               && |added| == WithFeatures(layers.value)
               && (forall j | 0 <= j < |added| :: IsLayerName(Titles(old(widgetLayers)), old(file).value.name, added[j]))
               && widgetLayers == old(widgetLayers) + seq(|added|, j requires 0 <= j < |added| => WidgetLayer(added[j])))
      ensures file == old(file) && analyzeResponse == old(analyzeResponse) && generateResponse == old(generateResponse)
    {
      added := [];
      if !hasMap || file.None? || file.value.esriFileType == "" || featuresAdded {
        return;
      }
      if generateResponse.None? {
        return;
      }
      var layers := generateResponse.value.layers;
      if layers.None? || |layers.value| == 0 {
        uploadStatus := NoData;
        return;
      }
      featuresAdded := true;
      var ls, fileName, current := layers.value, file.value.name, widgetLayers;
      added := NameLayers(current, fileName, ls);
      widgetLayers := current + seq(|added|, j requires 0 <= j < |added| => WidgetLayer(added[j]));
      uploadStatus := Success;
    }
    /** The same effect with each name computed against the widget layers
        and the names already given in this upload. */
    method AddFeaturesDistinct(hasMap: bool) returns (added: seq<string>)
      modifies this
      ensures var proceed := hasMap && old(file).Some? && old(file).value.esriFileType != ""
        && !old(featuresAdded) && old(generateResponse).Some?;
        && (!proceed ==> (added == [] && uploadStatus == old(uploadStatus) && featuresAdded == old(featuresAdded)
             && widgetLayers == old(widgetLayers)))
        && (proceed ==> var layers := old(generateResponse).value.layers;
             if layers.None? || |layers.value| == 0 then
               added == [] && uploadStatus == NoData && featuresAdded == old(featuresAdded) && widgetLayers == old(widgetLayers)
             else
               && uploadStatus == Success && featuresAdded
               && |added| == WithFeatures(layers.value)
               && (forall j | 0 <= j < |added| :: added[j] !in Titles(old(widgetLayers)))
               && (forall j, k | 0 <= j < k < |added| :: added[j] != added[k])
               && widgetLayers == old(widgetLayers) + seq(|added|, j requires 0 <= j < |added| => WidgetLayer(added[j])))
      ensures file == old(file) && analyzeResponse == old(analyzeResponse) && generateResponse == old(generateResponse)
    {
      added := [];
      if !hasMap || file.None? || file.value.esriFileType == "" || featuresAdded {
        return;
      }
      if generateResponse.None? {
        return;
      }
      var layers := generateResponse.value.layers;
      if layers.None? || |layers.value| == 0 {
        uploadStatus := NoData;
        return;
      }
      featuresAdded := true;
      var ls, fileName, current := layers.value, file.value.name, widgetLayers;
      added := NameLayersDistinct(current, fileName, ls);
      widgetLayers := current + seq(|added|, j requires 0 <= j < |added| => WidgetLayer(added[j]));
      uploadStatus := Success;
    }
  }
  /** The loop of the feature-adding effect as written: each layer with
      features is named against the same widget layers. */
  method NameLayers(widgetLayers: seq<WidgetLayer>, fileName: string, ls: seq<ResponseLayer>) returns (added: seq<string>)
    ensures |added| == WithFeatures(ls)
    ensures forall j | 0 <= j < |added| :: IsLayerName(Titles(widgetLayers), fileName, added[j])
  {
    added := [];
    var i := 0;
    while i < |ls|
      invariant i <= |ls|
      invariant |added| == WithFeatures(ls[..i])
      invariant forall j | 0 <= j < |added| :: IsLayerName(Titles(widgetLayers), fileName, added[j])
    {
      assert ls[..i + 1][..i] == ls[..i];
      if ls[i].featureCount > 0 {
        var layerName := GetLayerName(widgetLayers, fileName);
        added := added + [layerName];
      }
      i := i + 1;
    }
    assert ls[..i] == ls;
  }

  /** The loop with each name computed against the widget layers and the
      names already given. */
  method NameLayersDistinct(widgetLayers: seq<WidgetLayer>, fileName: string, ls: seq<ResponseLayer>) returns (added: seq<string>)
    ensures |added| == WithFeatures(ls)
    ensures forall j | 0 <= j < |added| :: added[j] !in Titles(widgetLayers)
    ensures forall j, k | 0 <= j < k < |added| :: added[j] != added[k]
  {
    added := [];
    var named := widgetLayers;
    var i := 0;
    while i < |ls|
      invariant i <= |ls|
      invariant |added| == WithFeatures(ls[..i])
      invariant named == widgetLayers + seq(|added|, j requires 0 <= j < |added| => WidgetLayer(added[j]))
      invariant forall j | 0 <= j < |added| :: added[j] !in Titles(widgetLayers)
      invariant forall j, k | 0 <= j < k < |added| :: added[j] != added[k]
    {
      assert ls[..i + 1][..i] == ls[..i];
      if ls[i].featureCount > 0 {
        var layerName := GetLayerName(named, fileName);
        FreshName(widgetLayers, added, named, layerName);
        added := added + [layerName];
        named := named + [WidgetLayer(layerName)];
      }
      i := i + 1;
    }
    assert ls[..i] == ls;
  }

  /** A name free among the widget layers and the names given so far is new
      on both counts. */
  lemma FreshName(widgetLayers: seq<WidgetLayer>, added: seq<string>, named: seq<WidgetLayer>, name: string)
    requires named == widgetLayers + seq(|added|, j requires 0 <= j < |added| => WidgetLayer(added[j]))
    requires name !in Titles(named)
    ensures name !in Titles(widgetLayers)
    ensures forall j | 0 <= j < |added| :: added[j] != name
  {
    forall i | 0 <= i < |widgetLayers| ensures Titles(widgetLayers)[i] != name {
      assert Titles(named)[i] == widgetLayers[i].title;
    }
    forall j | 0 <= j < |added| ensures added[j] != name {
      assert Titles(named)[|widgetLayers| + j] == added[j];
    }
  }

  /** As written, two layers with features in one response get the same
      title: each name is computed against the same, unchanged list. */
  lemma SameNameTwice(titles: seq<string>, desiredName: string, added: seq<string>)
    requires |added| >= 2
    requires forall j | 0 <= j < |added| :: IsLayerName(titles, desiredName, added[j])
    ensures added[0] == added[1]
  {
    LayerNameUnique(titles, desiredName, added[0], added[1]);
  }
}
