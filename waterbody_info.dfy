/** The logic behind the waterbody popups: the yes/no attribute text, the
    CyAN cell-concentration lookups and the response filter, the USGS
    streamgage measurement list, and the monitoring-location table of
    characteristic groups (`buildGroups`, the row and select-all toggles,
    and the download filter they produce). */
module WaterbodyInfo {
  import opened Wrappers
  import opened JsObjects
  import opened JsStrings
  import SP = StationParsing
  import SF = StationFilters

  // ---------------------------------------------------------------------
  // `bool`

  /** `bool(value)`: `'Yes'` for a non-empty string whose `parseInt` is a
      non-zero number, `'No'` otherwise (`NaN` and zero are falsy). */
  function Bool(value: string): (r: string)
    ensures r == "Yes" || r == "No"
  {
    if |value| > 0 && ParseInt(value).Some? && ParseInt(value).value != 0 then "Yes" else "No"
  }

  /** A number's decimal text, signed or not and with any non-numeric
      trailer, reads `'Yes'` exactly when the number is not zero. */
  lemma BoolOfNumber(sign: string, n: nat, u: string)
    requires sign == "" || sign == "-" || sign == "+"
    requires u == [] || !IsDigit(u[0])
    ensures Bool(sign + (Decimal(n) + u)) == if n == 0 then "No" else "Yes"
  {
    var value := sign + (Decimal(n) + u);
    ParseIntOfDecimal(sign, n, u);
    assert |value| >= |Decimal(n)| > 0;
    assert ParseInt(value).value == 0 <==> n == 0;
  }

  /** Text without a digit, the empty string included, reads `'No'`. */
  lemma BoolWithoutDigits(value: string)
    requires forall i | 0 <= i < |value| :: !IsDigit(value[i])
    ensures Bool(value) == "No"
  {
    ParseIntNoDigits(value);
  }

  // ---------------------------------------------------------------------
  // Cell concentration

  /** `counts.findIndex(count => count > 0)`, with `None` for `-1`. */
  function FirstPositive(counts: seq<int>): (r: Option<nat>)
    ensures r.Some? ==> r.value < |counts| && counts[r.value] > 0
    ensures r.Some? ==> forall j | 0 <= j < r.value :: counts[j] <= 0
    ensures r.None? ==> forall j | 0 <= j < |counts| :: counts[j] <= 0
  {
    if |counts| == 0 then None
    else if counts[0] > 0 then Some(0)
    else
      match FirstPositive(counts[1..])
      case None => None
      case Some(i) => Some(i + 1)
  }

  /** The last index with a positive count. */
  function LastPositive(counts: seq<int>): (r: Option<nat>)
    ensures r.Some? ==> r.value < |counts| && counts[r.value] > 0
    ensures r.Some? ==> forall j | r.value < j < |counts| :: counts[j] <= 0
    ensures r.None? ==> forall j | 0 <= j < |counts| :: counts[j] <= 0
  {
    if |counts| == 0 then None
    else if counts[|counts| - 1] > 0 then Some(|counts| - 1)
    else LastPositive(counts[..|counts| - 1])
  }

  /** `getMinCellConcentration`: the concentration of the first class with
      a positive pixel count, `null` when the counts are empty or none is
      positive.  `cyanMetadata` is passed as `metadata`. */
  function GetMinCellConcentration<M>(counts: seq<int>, metadata: seq<M>): (r: Option<M>)
    requires |counts| <= |metadata|
    ensures r.None? <==> forall j | 0 <= j < |counts| :: counts[j] <= 0
    ensures r.Some? ==> exists i | 0 <= i < |counts| ::
      counts[i] > 0 && r.value == metadata[i] && forall j | 0 <= j < i :: counts[j] <= 0
  {
    if |counts| == 0 then None
    else
      match FirstPositive(counts)
      case None => None
      case Some(i) => Some(metadata[i])
  }

  /** `getMaxCellConcentration`: the reverse scan for the last class with a
      positive pixel count. */
  method GetMaxCellConcentration<M>(counts: seq<int>, metadata: seq<M>) returns (r: Option<M>)
    requires |counts| <= |metadata|
    ensures r == if LastPositive(counts).Some? then Some(metadata[LastPositive(counts).value]) else None
    ensures r.None? <==> forall j | 0 <= j < |counts| :: counts[j] <= 0
  {
    if |counts| == 0 {
      return None;
    }
    var i := |counts| - 1;
    while i >= 0
      invariant -1 <= i < |counts|
      invariant forall j | i < j < |counts| :: counts[j] <= 0
    {
      if counts[i] > 0 {
        return Some(metadata[i]);
      }
      i := i - 1;
    }
    return None;
  }

  /** There is a minimum exactly when there is a maximum, and the minimum's
      class never comes after the maximum's. */
  lemma MinNotAfterMax(counts: seq<int>)
    ensures FirstPositive(counts).Some? <==> LastPositive(counts).Some?
    ensures FirstPositive(counts).Some? ==> FirstPositive(counts).value <= LastPositive(counts).value
  {
    if FirstPositive(counts).Some? {
      var i := FirstPositive(counts).value;
      assert counts[i] > 0;
    }
  }

  /** The pixel counts of one day are usable only when the response has
      all 256 classes; classes 0, 254 and 255 (undetectable pixels) are
      dropped, which leaves the 253 classes `1..253`. */
  function TrimCellCounts(values: seq<int>): (r: Option<seq<int>>)
    ensures r.Some? <==> |values| == 256
    ensures r.Some? ==> |r.value| == 253 && forall i | 0 <= i < 253 :: r.value[i] == values[i + 1]
  {
    if |values| != 256 then None else Some(values[1..254])
  }

  /** One day of a cell-concentration response: its date text and counts. */
  datatype DayCounts = DayCounts(date: string, values: seq<int>)

  /** An empty list for each of the first `n` days from `start`, in steps
      of `oneDay`. */
  function EmptyDays(start: int, oneDay: int, n: nat): (r: map<int, seq<int>>)
    ensures forall d | d in r :: r[d] == []
  {
    if n == 0 then map[] else EmptyDays(start, oneDay, n - 1)[start + (n - 1) * oneDay := []]
  }

  lemma MulCancel(a: int, b: int, c: int)
    requires c > 0 && a * c <= b * c
    ensures a <= b
  {
  }

  /** The response entries stored over the empty week, in order: an entry
      with 256 counts and a readable date replaces what its day held.
      `toEpoch` is `cyanDateToEpoch`, which is not part of this model. */
  function Stored(data: map<int, seq<int>>, entries: seq<DayCounts>, toEpoch: string -> Option<int>): (r: map<int, seq<int>>)
    ensures forall d | d in data :: d in r
    ensures forall d | d in r && d !in data :: exists e | e in entries :: toEpoch(e.date) == Some(d)
    ensures forall d | d in r :: r[d] == (if d in data then data[d] else []) || exists e | e in entries ::
      |e.values| == 256 && toEpoch(e.date) == Some(d) && r[d] == e.values[1..254]
    decreases |entries|
  {
    if |entries| == 0 then data
    else
      var before := Stored(data, entries[..|entries| - 1], toEpoch);
      var e := entries[|entries| - 1];
      assert forall x | x in entries[..|entries| - 1] :: x in entries;
      match TrimCellCounts(e.values)
      case None => before
      case Some(kept) =>
        match toEpoch(e.date)
        case None => before
        case Some(day) => before[day := kept]
  }

  /** The effect's data handling: an empty list for each of the seven days
      up to `today`, then each response entry with 256 counts stored,
      trimmed, under its day. */
  method CellConcentrationData(today: int, oneDay: int, entries: seq<DayCounts>, toEpoch: string -> Option<int>)
    returns (newData: map<int, seq<int>>)
    requires oneDay > 0
    ensures newData == Stored(EmptyDays(today - 6 * oneDay, oneDay, 7), entries, toEpoch)
  {
    newData := EmptyWeek(today, oneDay);
    newData := StoreEntries(newData, entries, toEpoch);
  }

  /** The `while` loop of the effect: an empty list under each day from six
      days before `today` up to `today`. */
  method EmptyWeek(today: int, oneDay: int) returns (newData: map<int, seq<int>>)
    requires oneDay > 0
    ensures newData == EmptyDays(today - 6 * oneDay, oneDay, 7)
  {
    var start := today - 6 * oneDay;
    newData := map[];
    var currentDate := start;
    ghost var n: nat := 0;
    while currentDate <= today
      invariant 0 <= n <= 7
      invariant currentDate == start + n * oneDay
      invariant newData == EmptyDays(start, oneDay, n)
      decreases today - currentDate
    {
      MulCancel(n, 6, oneDay);
      newData := newData[currentDate := []];
      currentDate := currentDate + oneDay;
      n := n + 1;
    }
    assert n == 7 by {
      MulCancel(7, n, oneDay);
    }
  }

  /** The `forEach` over the response: each entry with 256 counts and a
      readable date stored, trimmed, under its day. */
  method StoreEntries(data: map<int, seq<int>>, entries: seq<DayCounts>, toEpoch: string -> Option<int>)
    returns (newData: map<int, seq<int>>)
    ensures newData == Stored(data, entries, toEpoch)
  {
    newData := data;
    var i := 0;
    while i < |entries|
      invariant 0 <= i <= |entries|
      invariant newData == Stored(data, entries[..i], toEpoch)
    {
      assert entries[..i + 1][..i] == entries[..i];
      var values := entries[i].values;
      if |values| == 256 {
        var epochDate := toEpoch(entries[i].date);
        if epochDate.Some? {
          newData := newData[epochDate.value := values[1..254]];
        }
      }
      i := i + 1;
    }
    assert entries[..i] == entries;
  }

  /** Every day of the result holds either nothing or exactly 253 counts. */
  lemma StoredCountsTrimmed(entries: seq<DayCounts>, toEpoch: string -> Option<int>, today: int, oneDay: int)
    ensures var r := Stored(EmptyDays(today - 6 * oneDay, oneDay, 7), entries, toEpoch);
      forall d | d in r :: |r[d]| == 0 || |r[d]| == 253
  {
  }

  // ---------------------------------------------------------------------
  // USGS streamgage measurements

  /** The fields of a streamgage measurement the list logic reads. */
  datatype StreamgageMeasurement = StreamgageMeasurement(parameterCode: string, parameterOrder: int, multiple: bool)

  /** `array.find(m => m.parameterCode === code)`, as an index. */
  function FindCode(items: seq<StreamgageMeasurement>, code: string): (r: Option<nat>)
    ensures r.Some? ==> r.value < |items| && items[r.value].parameterCode == code
    ensures r.None? ==> forall i | 0 <= i < |items| :: items[i].parameterCode != code
  {
    if |items| == 0 then None
    else if items[0].parameterCode == code then Some(0)
    else
      match FindCode(items[1..], code)
      case None => None
      case Some(i) => Some(i + 1)
  }

  /** The list after `addUniqueMeasurement(m, items)`. */
  function WithMeasurement(items: seq<StreamgageMeasurement>, m: StreamgageMeasurement): seq<StreamgageMeasurement> {
    match FindCode(items, m.parameterCode)
    case Some(i) => items[i := items[i].(multiple := true)]
    case None => items + [m]
  }

  /** The list of one measurement group (primary or secondary). */
  class MeasurementList {
    var items: seq<StreamgageMeasurement>

    constructor ()
      ensures items == []
    {
      items := [];
    }

    /** `addUniqueMeasurement`: a measurement whose parameter code is
        already listed marks the listed one `multiple`; any other is
        appended as a copy. */
    method AddUniqueMeasurement(measurement: StreamgageMeasurement)
      modifies this
      ensures items == WithMeasurement(old(items), measurement)
    {
      var found := FindCode(items, measurement.parameterCode);
      if found.Some? {
        items := items[found.value := items[found.value].(multiple := true)];
      } else {
        items := items + [measurement];
      }
    }
  }

  /** The list the measurements `ms` leave behind, one call per element
      in order. */
  function UniqueMeasurements(ms: seq<StreamgageMeasurement>): seq<StreamgageMeasurement>
    decreases |ms|
  {
    if |ms| == 0 then [] else WithMeasurement(UniqueMeasurements(ms[..|ms| - 1]), ms[|ms| - 1])
  }

  /** The `forEach` over one measurement group. */
  method CollectMeasurements(ms: seq<StreamgageMeasurement>) returns (r: seq<StreamgageMeasurement>)
    ensures r == UniqueMeasurements(ms)
  {
    var list := new MeasurementList();
    for i := 0 to |ms|
      invariant list.items == UniqueMeasurements(ms[..i])
    {
      assert ms[..i + 1][..i] == ms[..i];
      list.AddUniqueMeasurement(ms[i]);
    }
    assert ms[..|ms|] == ms;
    r := list.items;
  }

  /** How many measurements carry the code. */
  function Occurrences(ms: seq<StreamgageMeasurement>, code: string): (r: nat)
    ensures r > 0 <==> exists j | 0 <= j < |ms| :: ms[j].parameterCode == code
    decreases |ms|
  {
    if |ms| == 0 then 0
    else
      var p := ms[..|ms| - 1];
      assert forall j | 0 <= j < |p| :: p[j] == ms[j];
      Occurrences(p, code) + if ms[|ms| - 1].parameterCode == code then 1 else 0
  }

  /** The first measurement carrying the code. */
  function FirstWith(ms: seq<StreamgageMeasurement>, code: string): (r: Option<StreamgageMeasurement>)
    ensures r.Some? <==> Occurrences(ms, code) > 0
    ensures r.Some? ==> r.value.parameterCode == code
    decreases |ms|
  {
    if |ms| == 0 then None
    else
      var p := FirstWith(ms[..|ms| - 1], code);
      if p.Some? then p
      else if ms[|ms| - 1].parameterCode == code then Some(ms[|ms| - 1])
      else None
  }

  /** What the list holds for a code that occurs: the first measurement
      with it, marked `multiple` when another one followed. */
  function Summary(ms: seq<StreamgageMeasurement>, code: string): StreamgageMeasurement
    requires Occurrences(ms, code) > 0
  {
    var f := FirstWith(ms, code).value;
    f.(multiple := f.multiple || Occurrences(ms, code) >= 2)
  }

  /** The list holds one entry per parameter code of `ms` and nothing
      else, each the code's summary. */
  ghost predicate Summarises(r: seq<StreamgageMeasurement>, ms: seq<StreamgageMeasurement>) {
    && (forall i, j | 0 <= i < j < |r| :: r[i].parameterCode != r[j].parameterCode)
    && CodesListed(r, ms)
    && EntriesSummarised(r, ms)
  }

  /** How a code's count and first measurement change when `m` arrives. */
  lemma ArrivalFacts(ms: seq<StreamgageMeasurement>, m: StreamgageMeasurement, code: string)
    ensures Occurrences(ms + [m], code) == Occurrences(ms, code) + if m.parameterCode == code then 1 else 0
    ensures FirstWith(ms + [m], code) ==
      if FirstWith(ms, code).Some? then FirstWith(ms, code)
      else if m.parameterCode == code then Some(m) else None
  {
    assert (ms + [m])[..|ms|] == ms;
  }

  /** Each listed entry is its code's summary. */
  ghost predicate EntriesSummarised(r: seq<StreamgageMeasurement>, ms: seq<StreamgageMeasurement>) {
    forall i | 0 <= i < |r| :: Occurrences(ms, r[i].parameterCode) > 0 && r[i] == Summary(ms, r[i].parameterCode)
  }

  /** Every code that arrived is listed. */
  ghost predicate CodesListed(r: seq<StreamgageMeasurement>, ms: seq<StreamgageMeasurement>) {
    forall j | 0 <= j < |ms| :: Listed(r, ms[j].parameterCode)
  }

  /** Some entry of the list carries the code. */
  ghost predicate Listed(r: seq<StreamgageMeasurement>, code: string) {
    exists i | 0 <= i < |r| :: r[i].parameterCode == code
  }

  /** A measurement whose code is listed at `i` marks that entry. */
  lemma SummarisesRepeat(r: seq<StreamgageMeasurement>, ms: seq<StreamgageMeasurement>, m: StreamgageMeasurement, i: nat)
    requires Summarises(r, ms)
    requires i < |r| && r[i].parameterCode == m.parameterCode
    ensures Summarises(r[i := r[i].(multiple := true)], ms + [m])
  {
    var r' := r[i := r[i].(multiple := true)];
    RepeatSummarised(r, ms, m, i);
    RepeatListed(r, ms, m, i);
    forall a, b | 0 <= a < b < |r'| ensures r'[a].parameterCode != r'[b].parameterCode {
      assert r'[a].parameterCode == r[a].parameterCode && r'[b].parameterCode == r[b].parameterCode;
    }
  }

  lemma RepeatListed(r: seq<StreamgageMeasurement>, ms: seq<StreamgageMeasurement>, m: StreamgageMeasurement, i: nat)
    requires CodesListed(r, ms)
    requires i < |r| && r[i].parameterCode == m.parameterCode
    ensures CodesListed(r[i := r[i].(multiple := true)], ms + [m])
  {
    var ms' := ms + [m];
    var r' := r[i := r[i].(multiple := true)];
    forall j | 0 <= j < |ms'|
      ensures Listed(r', ms'[j].parameterCode)
    {
      if j < |ms| {
        assert ms'[j] == ms[j];
        var k :| 0 <= k < |r| && r[k].parameterCode == ms[j].parameterCode;
        assert r'[k].parameterCode == r[k].parameterCode;
      } else {
        assert r'[i].parameterCode == ms'[j].parameterCode;
      }
    }
    assert CodesListed(r', ms');
  }

  lemma RepeatSummarised(r: seq<StreamgageMeasurement>, ms: seq<StreamgageMeasurement>, m: StreamgageMeasurement, i: nat)
    requires EntriesSummarised(r, ms)
    requires forall i, j | 0 <= i < j < |r| :: r[i].parameterCode != r[j].parameterCode
    requires i < |r| && r[i].parameterCode == m.parameterCode
    ensures EntriesSummarised(r[i := r[i].(multiple := true)], ms + [m])
  {
    var ms' := ms + [m];
    var r' := r[i := r[i].(multiple := true)];
    forall k | 0 <= k < |r'|
      ensures Occurrences(ms', r'[k].parameterCode) > 0 && r'[k] == Summary(ms', r'[k].parameterCode)
    {
      var c := r[k].parameterCode;
      assert Occurrences(ms, c) > 0 && r[k] == Summary(ms, c);
      ArrivalFacts(ms, m, c);
      if k == i {
        var f := FirstWith(ms, c).value;
        assert FirstWith(ms', c).value == f;
        assert Occurrences(ms', c) >= 2;
        assert r'[k] == f.(multiple := true);
      } else {
        assert c != m.parameterCode;
      }
    }
  }

  /** A measurement with a new code is appended as it is. */
  lemma SummarisesNew(r: seq<StreamgageMeasurement>, ms: seq<StreamgageMeasurement>, m: StreamgageMeasurement)
    requires Summarises(r, ms)
    requires forall i | 0 <= i < |r| :: r[i].parameterCode != m.parameterCode
    ensures Summarises(r + [m], ms + [m])
  {
    assert Occurrences(ms, m.parameterCode) == 0 by {
      assert CodesListed(r, ms);
      forall j | 0 <= j < |ms| ensures ms[j].parameterCode != m.parameterCode {
        var k :| 0 <= k < |r| && r[k].parameterCode == ms[j].parameterCode;
      }
    }
    NewSummarised(r, ms, m);
    NewListed(r, ms, m);
  }

  lemma NewSummarised(r: seq<StreamgageMeasurement>, ms: seq<StreamgageMeasurement>, m: StreamgageMeasurement)
    requires EntriesSummarised(r, ms) && Occurrences(ms, m.parameterCode) == 0
    ensures EntriesSummarised(r + [m], ms + [m])
  {
    var ms' := ms + [m];
    var r' := r + [m];
    forall k | 0 <= k < |r'|
      ensures Occurrences(ms', r'[k].parameterCode) > 0 && r'[k] == Summary(ms', r'[k].parameterCode)
    {
      ArrivalFacts(ms, m, r'[k].parameterCode);
      if k < |r| {
        assert r'[k] == r[k];
      }
    }
  }

  lemma NewListed(r: seq<StreamgageMeasurement>, ms: seq<StreamgageMeasurement>, m: StreamgageMeasurement)
    requires CodesListed(r, ms)
    ensures CodesListed(r + [m], ms + [m])
  {
    var ms' := ms + [m];
    var r' := r + [m];
    assert CodesListed(r, ms);
    forall j | 0 <= j < |ms'|
      ensures Listed(r', ms'[j].parameterCode)
    {
      if j < |ms| {
        assert ms'[j] == ms[j];
        var k :| 0 <= k < |r| && r[k].parameterCode == ms[j].parameterCode;
        assert r'[k] == r[k];
      } else {
        assert r'[|r|] == m;
      }
    }
    assert CodesListed(r', ms');
  }

  lemma SummarisesStep(r: seq<StreamgageMeasurement>, ms: seq<StreamgageMeasurement>, m: StreamgageMeasurement)
    requires Summarises(r, ms)
    ensures Summarises(WithMeasurement(r, m), ms + [m])
  {
    match FindCode(r, m.parameterCode)
    case Some(i) => SummarisesRepeat(r, ms, m, i);
    case None => SummarisesNew(r, ms, m);
  }

  /** After a group's measurements are added one by one, no parameter
      code is listed twice, every code that arrived is listed, and each
      listed entry is the first measurement with its code, marked
      `multiple` exactly when a duplicate arrived (or it came marked). */
  lemma {:induction false} UniqueMeasurementsSummarise(ms: seq<StreamgageMeasurement>)
    ensures Summarises(UniqueMeasurements(ms), ms)
    decreases |ms|
  {
    if |ms| > 0 {
      var p := ms[..|ms| - 1];
      UniqueMeasurementsSummarise(p);
      assert p + [ms[|ms| - 1]] == ms;
      SummarisesStep(UniqueMeasurements(p), p, ms[|ms| - 1]);
    }
  }

  // ---------------------------------------------------------------------
  // `buildGroups`

  /** `stationTotalsByGroup`: either unparsed text or the measurement count
      of each characteristic group. */
  datatype StationTotals = TotalsText(text: string) | TotalsByGroup(counts: Obj<int>)

  /** A row of the table: the characteristic groups under one label and
      their measurement count. */
  datatype MappedGroup = MappedGroup(characteristicGroups: seq<string>, resultCount: int)

  /** `checkIfGroupInMapping`: some mapping lists the group name. */
  function CheckIfGroupInMapping(mappings: seq<SP.GroupMapping>, groupName: string): (r: bool)
    ensures r <==> exists m | m in mappings :: groupName in m.groupNames
  {
    if |mappings| == 0 then false
    else if groupName in mappings[0].groupNames then true
    else
      assert forall m | m in mappings :: m == mappings[0] || m in mappings[1..];
      CheckIfGroupInMapping(mappings[1..], groupName)
  }

  /** The sum of the station's counts for the listed group names. */
  function SumOf(counts: Obj<int>, names: seq<string>): int
    requires forall n | n in names :: n in counts.at
    decreases |names|
  {
    if |names| == 0 then 0
    else
      assert forall n | n in names[..|names| - 1] :: n in names;
      SumOf(counts, names[..|names| - 1]) + counts.at[names[|names| - 1]]
  }

  /** The row lists station group names, at least one and none twice, and
      counts the sum of their measurements. */
  ghost predicate RowOk(row: MappedGroup, counts: Obj<int>) {
    && row.characteristicGroups != []
    && Distinct(row.characteristicGroups)
    && (forall n | n in row.characteristicGroups :: n in counts.at)
    && row.resultCount == SumOf(counts, row.characteristicGroups)
  }

  ghost predicate WellBuilt(groups: Obj<MappedGroup>, counts: Obj<int>) {
    && groups.Valid()
    && forall l | l in groups.at :: RowOk(groups.at[l], counts)
  }

  /** The name listed under the label, created or appended to with its
      count; nothing changes when it is listed already. */
  function AddName(groups: Obj<MappedGroup>, g: string, n: string, count: int): Obj<MappedGroup> {
    if g in groups.at then
      if n in groups.at[g].characteristicGroups then groups
      else groups.Put(g, MappedGroup(groups.at[g].characteristicGroups + [n], groups.at[g].resultCount + count))
    else groups.Put(g, MappedGroup([n], count))
  }

  /** A name not yet in a row (or a new row) extends it with its count. */
  lemma RowExtended(cg: seq<string>, rc: int, counts: Obj<int>, n: string)
    requires n in counts.at && n !in cg
    requires cg == [] ==> rc == 0
    requires cg != [] ==> RowOk(MappedGroup(cg, rc), counts)
    ensures RowOk(MappedGroup(cg + [n], rc + counts.at[n]), counts)
  {
    assert SumOf(counts, cg + [n]) == SumOf(counts, cg) + counts.at[n] by {
      assert (cg + [n])[..|cg|] == cg;
    }
    assert Distinct(cg + [n]) by {
      forall i, j | 0 <= i < j < |cg + [n]| ensures (cg + [n])[i] != (cg + [n])[j] {
        if j == |cg| {
          assert (cg + [n])[i] == cg[i];
        }
      }
    }
  }

  lemma PutWell(groups: Obj<MappedGroup>, counts: Obj<int>, g: string, v: MappedGroup)
    requires WellBuilt(groups, counts) && RowOk(v, counts)
    ensures WellBuilt(groups.Put(g, v), counts)
  {
    PutValid(groups, g, v);
  }

  lemma AddNameWell(groups: Obj<MappedGroup>, counts: Obj<int>, g: string, n: string)
    requires WellBuilt(groups, counts) && n in counts.at
    ensures WellBuilt(AddName(groups, g, n, counts.at[n]), counts)
  {
    if !(g in groups.at && n in groups.at[g].characteristicGroups) {
      var cg := if g in groups.at then groups.at[g].characteristicGroups else [];
      var rc := if g in groups.at then groups.at[g].resultCount else 0;
      var v := MappedGroup(cg + [n], rc + counts.at[n]);
      assert g !in groups.at ==> cg + [n] == [n];
      assert AddName(groups, g, n, counts.at[n]) == groups.Put(g, v);
      RowExtended(cg, rc, counts, n);
      PutWell(groups, counts, g, v);
    }
  }

  lemma AddNameMembers(groups: Obj<MappedGroup>, g: string, n: string, count: int)
    ensures var r := AddName(groups, g, n, count);
      forall l, x :: (l in r.at && x in r.at[l].characteristicGroups) <==>
        ((l in groups.at && x in groups.at[l].characteristicGroups) || (l == g && x == n))
  {
  }

  /** One station group name filed under one mapping: listed names go to
      the mapping's label, names no mapping lists go to `'Other'`. */
  function FileName(groups: Obj<MappedGroup>, counts: Obj<int>, mappings: seq<SP.GroupMapping>, m: SP.GroupMapping, n: string): Obj<MappedGroup>
    requires n in counts.at
  {
    if n in m.groupNames then AddName(groups, m.name, n, counts.at[n])
    else if !CheckIfGroupInMapping(mappings, n) then AddName(groups, "Other", n, counts.at[n])
    else groups
  }

  /** Where the names are after the mappings `done`: under each label
      that lists them, and under `'Other'` when no mapping lists them and
      at least one mapping was visited. */
  ghost predicate Grouped(groups: Obj<MappedGroup>, counts: Obj<int>, mappings: seq<SP.GroupMapping>, done: seq<SP.GroupMapping>) {
    forall l, n | n in counts.at ::
      (l in groups.at && n in groups.at[l].characteristicGroups) <==>
        (SP.Lists(done, l, n) || (l == "Other" && !CheckIfGroupInMapping(mappings, n) && |done| > 0))
  }

  /** Where the names are part way through the mapping `cur`, after the
      names `seen`. */
  ghost predicate Placed(groups: Obj<MappedGroup>, counts: Obj<int>, mappings: seq<SP.GroupMapping>,
                         done: seq<SP.GroupMapping>, cur: SP.GroupMapping, seen: seq<string>) {
    forall l, n | n in counts.at ::
      (l in groups.at && n in groups.at[l].characteristicGroups) <==>
        || SP.Lists(done, l, n)
        || (cur.name == l && n in cur.groupNames && n in seen)
        || (l == "Other" && !CheckIfGroupInMapping(mappings, n) && (|done| > 0 || n in seen))
  }

  lemma FileNamePlaced(groups: Obj<MappedGroup>, counts: Obj<int>, mappings: seq<SP.GroupMapping>,
                       done: seq<SP.GroupMapping>, cur: SP.GroupMapping, seen: seq<string>, n: string)
    requires WellBuilt(groups, counts) && n in counts.at && cur in mappings
    requires Placed(groups, counts, mappings, done, cur, seen)
    ensures WellBuilt(FileName(groups, counts, mappings, cur, n), counts)
    ensures Placed(FileName(groups, counts, mappings, cur, n), counts, mappings, done, cur, seen + [n])
  {
    if n in cur.groupNames {
      PlacedListed(groups, counts, mappings, done, cur, seen, n);
    } else if !CheckIfGroupInMapping(mappings, n) {
      PlacedOther(groups, counts, mappings, done, cur, seen, n);
    } else {
      PlacedSkipped(groups, counts, mappings, done, cur, seen, n);
    }
  }

  lemma PlacedListed(groups: Obj<MappedGroup>, counts: Obj<int>, mappings: seq<SP.GroupMapping>,
                     done: seq<SP.GroupMapping>, cur: SP.GroupMapping, seen: seq<string>, n: string)
    requires WellBuilt(groups, counts) && n in counts.at && cur in mappings && n in cur.groupNames
    requires Placed(groups, counts, mappings, done, cur, seen)
    ensures WellBuilt(AddName(groups, cur.name, n, counts.at[n]), counts)
    ensures Placed(AddName(groups, cur.name, n, counts.at[n]), counts, mappings, done, cur, seen + [n])
  {
    assert CheckIfGroupInMapping(mappings, n);
    AddNameWell(groups, counts, cur.name, n);
    AddNameMembers(groups, cur.name, n, counts.at[n]);
    var r := AddName(groups, cur.name, n, counts.at[n]);
    forall l, x | x in counts.at
      ensures (l in r.at && x in r.at[l].characteristicGroups) <==>
        || SP.Lists(done, l, x)
        || (cur.name == l && x in cur.groupNames && x in seen + [n])
        || (l == "Other" && !CheckIfGroupInMapping(mappings, x) && (|done| > 0 || x in seen + [n]))
    {
      assert x in seen + [n] <==> x in seen || x == n;
    }
  }

  lemma PlacedOther(groups: Obj<MappedGroup>, counts: Obj<int>, mappings: seq<SP.GroupMapping>,
                    done: seq<SP.GroupMapping>, cur: SP.GroupMapping, seen: seq<string>, n: string)
    requires WellBuilt(groups, counts) && n in counts.at && n !in cur.groupNames
    requires !CheckIfGroupInMapping(mappings, n)
    requires Placed(groups, counts, mappings, done, cur, seen)
    ensures WellBuilt(AddName(groups, "Other", n, counts.at[n]), counts)
    ensures Placed(AddName(groups, "Other", n, counts.at[n]), counts, mappings, done, cur, seen + [n])
  {
    assert forall x :: x in seen + [n] <==> x in seen || x == n;
    AddNameWell(groups, counts, "Other", n);
    AddNameMembers(groups, "Other", n, counts.at[n]);
  }

  lemma PlacedSkipped(groups: Obj<MappedGroup>, counts: Obj<int>, mappings: seq<SP.GroupMapping>,
                      done: seq<SP.GroupMapping>, cur: SP.GroupMapping, seen: seq<string>, n: string)
    requires n in counts.at && n !in cur.groupNames && CheckIfGroupInMapping(mappings, n)
    requires Placed(groups, counts, mappings, done, cur, seen)
    ensures Placed(groups, counts, mappings, done, cur, seen + [n])
  {
    assert forall x :: x in seen + [n] <==> x in seen || x == n;
  }

  /** The body of the inner loop of `buildGroups`, for one station group
      name and one mapping. */
  method FileGroupName(groups0: Obj<MappedGroup>, counts: Obj<int>, mappings: seq<SP.GroupMapping>,
                       mapping: SP.GroupMapping, groupName: string)
    returns (groups: Obj<MappedGroup>)
    requires groupName in counts.at && mapping in mappings
    ensures groups == FileName(groups0, counts, mappings, mapping, groupName)
  {
    groups := groups0;
    var count := counts.at[groupName];
    if groupName in mapping.groupNames
       && !(mapping.name in groups.at && groupName in groups.at[mapping.name].characteristicGroups) {
      if mapping.name in groups.at {
        var g := groups.at[mapping.name];
        groups := groups.Put(mapping.name, MappedGroup(g.characteristicGroups + [groupName], g.resultCount + count));
      } else {
        groups := groups.Put(mapping.name, MappedGroup([groupName], count));
      }
    } else if !CheckIfGroupInMapping(mappings, groupName) {
      var other := if "Other" in groups.at then groups.at["Other"] else MappedGroup([], 0);
      if groupName !in other.characteristicGroups {
        assert "Other" !in groups.at ==> other.characteristicGroups + [groupName] == [groupName];
        groups := groups.Put("Other", MappedGroup(other.characteristicGroups + [groupName], other.resultCount + count));
      }
    }
  }

  /** Once the mapping has seen every station group name, it counts as
      done. */
  lemma PlacedAll(groups: Obj<MappedGroup>, counts: Obj<int>, mappings: seq<SP.GroupMapping>, i: nat)
    requires counts.Valid() && i < |mappings|
    requires Placed(groups, counts, mappings, mappings[..i], mappings[i], counts.keys)
    ensures Grouped(groups, counts, mappings, mappings[..i + 1])
  {
    assert mappings[..i + 1] == mappings[..i] + [mappings[i]];
    forall l, n | n in counts.at
      ensures SP.Lists(mappings[..i + 1], l, n) <==> SP.Lists(mappings[..i], l, n) || (mappings[i].name == l && n in mappings[i].groupNames)
    {
      SP.ListsSnoc(mappings[..i], mappings[i], l, n);
    }
  }

  /** The inner loop of `buildGroups`: every station group name against
      the mapping `mappings[i]`. */
  method FileStationGroups(groups0: Obj<MappedGroup>, counts: Obj<int>, mappings: seq<SP.GroupMapping>, i: nat)
    returns (groups: Obj<MappedGroup>)
    requires counts.Valid() && i < |mappings|
    requires WellBuilt(groups0, counts) && Grouped(groups0, counts, mappings, mappings[..i])
    ensures WellBuilt(groups, counts) && Grouped(groups, counts, mappings, mappings[..i + 1])
  {
    var mapping := mappings[i];
    groups := groups0;
    var names := counts.keys;
    for j := 0 to |names|
      invariant WellBuilt(groups, counts)
      invariant Placed(groups, counts, mappings, mappings[..i], mapping, names[..j])
    {
      var groupName := names[j];
      assert names[..j + 1] == names[..j] + [groupName];
      FileNamePlaced(groups, counts, mappings, mappings[..i], mapping, names[..j], groupName);
      groups := FileGroupName(groups, counts, mappings, mapping, groupName);
    }
    assert names[..|names|] == names;
    PlacedAll(groups, counts, mappings, i);
  }

  /** `o[k] = v` for every key, in order, starting from `{}`. */
  function AllSet(keys: seq<string>, v: bool): (o: Obj<bool>)
    ensures o.keys == keys && o.at.Keys == set k | k in keys
    ensures forall k | k in o.at :: o.at[k] == v
  {
    Obj(keys, map k | k in keys :: v)
  }

  /** The `forEach` that sets each key of an object to a value. */
  method SetAll(keys: seq<string>, v: bool) returns (o: Obj<bool>)
    requires forall i, j | 0 <= i < j < |keys| :: keys[i] != keys[j]
    ensures o == AllSet(keys, v) && o.Valid()
  {
    o := Empty();
    for i := 0 to |keys|
      invariant o == AllSet(keys[..i], v) && o.Valid()
    {
      assert keys[..i + 1] == keys[..i] + [keys[i]];
      assert keys[i] !in o.at by {
        assert forall j | 0 <= j < i :: keys[..i][j] == keys[j];
      }
      PutValid(o, keys[i], v);
      o := o.Put(keys[i], v);
    }
    assert keys[..|keys|] == keys;
  }

  /** `buildGroups(checkIfGroupInMapping, totalsByGroup)` with
      `characteristicGroupMappings` passed as `mappings`: nothing for text;
      otherwise a row for each label whose mapping lists station group
      names, holding exactly those names once each and their total count,
      and an `'Other'` row for the names no mapping lists; every row
      selected. */
  method BuildGroups(mappings: seq<SP.GroupMapping>, totalsByGroup: StationTotals)
    returns (newGroups: Obj<MappedGroup>, newSelected: Obj<bool>)
    requires totalsByGroup.TotalsByGroup? ==> totalsByGroup.counts.Valid()
    ensures totalsByGroup.TotalsText? ==> newGroups.keys == [] && newGroups.at == map[]
    ensures totalsByGroup.TotalsByGroup? ==> WellBuilt(newGroups, totalsByGroup.counts)
    ensures totalsByGroup.TotalsByGroup? ==> forall l, n | n in totalsByGroup.counts.at ::
      (l in newGroups.at && n in newGroups.at[l].characteristicGroups) <==>
        (SP.Lists(mappings, l, n) || (l == "Other" && |mappings| > 0 && !CheckIfGroupInMapping(mappings, n)))
    ensures newGroups.Valid() && newSelected == AllSet(newGroups.keys, true) && newSelected.Valid()
  {
    newGroups := Empty();
    if totalsByGroup.TotalsText? {
      newSelected := Empty();
      return;
    }
    var stationGroups := totalsByGroup.counts;
    for i := 0 to |mappings|
      invariant WellBuilt(newGroups, stationGroups) && Grouped(newGroups, stationGroups, mappings, mappings[..i])
    {
      newGroups := FileStationGroups(newGroups, stationGroups, mappings, i);
    }
    assert mappings[..|mappings|] == mappings;
    newSelected := SetAll(newGroups.keys, true);
  }

  // ---------------------------------------------------------------------
  // The monitoring-location table

  /** `selected[g]` is `true` (a missing key reads `undefined`). */
  predicate Sel(selected: Obj<bool>, g: string) {
    g in selected.at && selected.at[g]
  }

  /** `selected[g] = !selected[g]`. */
  function FlipRow(selected: Obj<bool>, g: string): (r: Obj<bool>)
    ensures r.keys == if g in selected.at then selected.keys else selected.keys + [g]
    ensures Sel(r, g) == !Sel(selected, g)
    ensures forall k | k != g :: (k in r.at <==> k in selected.at) && (k in r.at ==> r.at[k] == selected.at[k])
  {
    selected.Put(g, !Sel(selected, g))
  }

  /** Flipping one row twice restores the selection. */
  lemma FlipRowTwice(selected: Obj<bool>, g: string)
    requires g in selected.at
    ensures FlipRow(FlipRow(selected, g), g) == selected
  {
    var r := FlipRow(FlipRow(selected, g), g);
    assert r.at == selected.at;
  }

  /** How many of the keys are selected. */
  function CountSelected(selected: Obj<bool>, keys: seq<string>): nat
    decreases |keys|
  {
    if |keys| == 0 then 0
    else CountSelected(selected, keys[..|keys| - 1]) + if Sel(selected, keys[|keys| - 1]) then 1 else 0
  }

  /** The count is at most the number of keys, reaches it exactly when
      every key is selected, and is zero exactly when none is. */
  lemma {:induction false} CountSelectedMeaning(selected: Obj<bool>, keys: seq<string>)
    ensures CountSelected(selected, keys) <= |keys|
    ensures CountSelected(selected, keys) == |keys| <==> forall k | k in keys :: Sel(selected, k)
    ensures CountSelected(selected, keys) == 0 <==> forall k | k in keys :: !Sel(selected, k)
    decreases |keys|
  {
    if |keys| > 0 {
      var p := keys[..|keys| - 1];
      CountSelectedMeaning(selected, p);
      assert keys == p + [keys[|keys| - 1]];
      assert forall k :: k in keys <==> k in p || k == keys[|keys| - 1];
    }
  }

  /** The select-all state for `numberSelected` of `totalSelections` rows. */
  function SelectAllFor(numberSelected: nat, totalSelections: nat): int {
    if numberSelected == totalSelections then 1 else if numberSelected == 0 then 0 else 2
  }

  /** For a non-empty table whose selection covers its rows, the state is
      1 when every row is selected, 0 when none is, and 2 otherwise. */
  lemma SelectAllMeaning(selected: Obj<bool>, groups: Obj<MappedGroup>)
    requires selected.Valid() && groups.Valid() && selected.keys == groups.keys && |groups.keys| > 0
    ensures var s := SelectAllFor(CountSelected(selected, selected.keys), |groups.keys|);
      && (s == 1 <==> forall g | g in groups.at :: Sel(selected, g))
      && (s == 0 <==> forall g | g in groups.at :: !Sel(selected, g))
      && (s == 2 <==> (exists g | g in groups.at :: Sel(selected, g)) && (exists g | g in groups.at :: !Sel(selected, g)))
  {
    CountSelectedMeaning(selected, selected.keys);
  }

  /** The `resultCount` of the selected rows among `keys`. */
  function SelectedTotal(groups: Obj<MappedGroup>, selected: Obj<bool>, keys: seq<string>): int
    requires forall k | k in keys :: k in groups.at
    decreases |keys|
  {
    if |keys| == 0 then 0
    else
      assert forall k | k in keys[..|keys| - 1] :: k in keys;
      var k := keys[|keys| - 1];
      SelectedTotal(groups, selected, keys[..|keys| - 1]) + if Sel(selected, k) then groups.at[k].resultCount else 0
  }

  /** The total shown under the table: the station's for state 1, zero for
      state 0, the selected rows' sum for state 2. */
  function TotalFor(selectAll: int, stationTotal: int, groups: Obj<MappedGroup>, selected: Obj<bool>): int
    requires groups.Valid()
  {
    if selectAll == 1 then stationTotal
    else if selectAll == 0 then 0
    else SelectedTotal(groups, selected, groups.keys)
  }

  const CharacteristicType: string := "&characteristicType="

  /** One `characteristicType` parameter per name. */
  function Render(names: seq<string>): string {
    if |names| == 0 then "" else CharacteristicType + names[0] + Render(names[1..])
  }

  lemma {:induction false} RenderAppend(a: seq<string>, b: seq<string>)
    ensures Render(a + b) == Render(a) + Render(b)
  {
    if |a| > 0 {
      assert (a + b)[1..] == a[1..] + b;
      RenderAppend(a[1..], b);
    } else {
      assert a + b == b;
    }
  }

  /** The parameter names with the first `join` delimiter in front are one
      parameter per name. */
  lemma {:induction false} JoinRender(names: seq<string>)
    requires |names| > 0
    ensures CharacteristicType + Join(names, CharacteristicType) == Render(names)
  {
    if |names| > 1 {
      JoinRender(names[1..]);
    }
  }

  /** The `for ... in` part of `buildFilter`, over the names `keys`. */
  function TypeFilter(selected: Obj<bool>, groups: Obj<MappedGroup>, keys: seq<string>): string
    requires forall k | k in keys && Sel(selected, k) :: k in groups.at
    decreases |keys|
  {
    if |keys| == 0 then ""
    else
      var k := keys[|keys| - 1];
      assert forall x | x in keys[..|keys| - 1] :: x in keys;
      TypeFilter(selected, groups, keys[..|keys| - 1])
        + if Sel(selected, k) then CharacteristicType + Join(groups.at[k].characteristicGroups, CharacteristicType) else ""
  }

  /** The characteristic groups of the selected rows among `keys`. */
  function SelectedTypes(selected: Obj<bool>, groups: Obj<MappedGroup>, keys: seq<string>): (r: seq<string>)
    requires forall k | k in keys && Sel(selected, k) :: k in groups.at
    ensures forall x :: x in r <==> exists k | k in keys && Sel(selected, k) :: x in groups.at[k].characteristicGroups
    decreases |keys|
  {
    if |keys| == 0 then []
    else
      var k := keys[|keys| - 1];
      assert forall x :: x in keys <==> x in keys[..|keys| - 1] || x == k;
      SelectedTypes(selected, groups, keys[..|keys| - 1])
        + if Sel(selected, k) then groups.at[k].characteristicGroups else []
  }

  /** The row part of the filter asks for exactly the characteristic
      groups of the selected rows, one parameter each. */
  lemma {:induction false} TypeFilterAsksForSelected(selected: Obj<bool>, groups: Obj<MappedGroup>, keys: seq<string>)
    requires forall k | k in keys && Sel(selected, k) :: k in groups.at && groups.at[k].characteristicGroups != []
    ensures TypeFilter(selected, groups, keys) == Render(SelectedTypes(selected, groups, keys))
    decreases |keys|
  {
    if |keys| > 0 {
      var p := keys[..|keys| - 1];
      var k := keys[|keys| - 1];
      assert forall x | x in p :: x in keys;
      TypeFilterAsksForSelected(selected, groups, p);
      var cg := if Sel(selected, k) then groups.at[k].characteristicGroups else [];
      RenderAppend(SelectedTypes(selected, groups, p), cg);
      if Sel(selected, k) {
        JoinRender(cg);
      }
    }
  }

  /** The date part of the filter the station's timeframe adds. */
  function TimeframeFilter(timeframe: Option<(nat, nat)>): string {
    match timeframe
    case None => ""
    case Some((lo, hi)) => SF.StartDateLo + Decimal(lo) + SF.StartDateHi + Decimal(hi)
  }

  /** What `buildFilter(selected, groups)` stores as the download filter. */
  function FilterFor(selectAll: int, selected: Obj<bool>, groups: Obj<MappedGroup>, timeframe: Option<(nat, nat)>): string
    requires forall k | k in selected.keys && Sel(selected, k) :: k in groups.at
  {
    (if selectAll == 2 then TypeFilter(selected, groups, selected.keys) else "") + TimeframeFilter(timeframe)
  }

  /** With some rows selected the download asks for exactly the groups of
      those rows; otherwise, with all rows or none selected, it asks for no
      characteristic type at all. */
  lemma FilterMeaning(selectAll: int, selected: Obj<bool>, groups: Obj<MappedGroup>, timeframe: Option<(nat, nat)>)
    requires forall k | k in selected.keys && Sel(selected, k) :: k in groups.at && groups.at[k].characteristicGroups != []
    ensures selectAll == 2 ==>
      FilterFor(selectAll, selected, groups, timeframe) == Render(SelectedTypes(selected, groups, selected.keys)) + TimeframeFilter(timeframe)
    ensures selectAll != 2 ==> FilterFor(selectAll, selected, groups, timeframe) == TimeframeFilter(timeframe)
  {
    TypeFilterAsksForSelected(selected, groups, selected.keys);
  }

  /** `buildFilter`: the loop over the selected names, then the dates. */
  method BuildFilter(selectAll: int, selectedNames: Obj<bool>, monitoringLocationData: Obj<MappedGroup>, timeframe: Option<(nat, nat)>)
    returns (filter: string)
    requires forall k | k in selectedNames.keys && Sel(selectedNames, k) :: k in monitoringLocationData.at
    ensures filter == FilterFor(selectAll, selectedNames, monitoringLocationData, timeframe)
  {
    filter := "";
    var names := selectedNames.keys;
    if selectAll == 2 {
      for i := 0 to |names|
        invariant filter == TypeFilter(selectedNames, monitoringLocationData, names[..i])
      {
        var name := names[i];
        TypeFilterSnoc(selectedNames, monitoringLocationData, names, i);
        if name in selectedNames.at && selectedNames.at[name] {
          filter := filter + (CharacteristicType + Join(monitoringLocationData.at[name].characteristicGroups, CharacteristicType));
        }
      }
      assert names[..|names|] == names;
    }
    if timeframe.Some? {
      filter := filter + (SF.StartDateLo + Decimal(timeframe.value.0) + SF.StartDateHi + Decimal(timeframe.value.1));
    }
  }

  /** One more name adds its row's parameters exactly when it is selected. */
  lemma TypeFilterSnoc(selected: Obj<bool>, groups: Obj<MappedGroup>, names: seq<string>, i: nat)
    requires forall k | k in names && Sel(selected, k) :: k in groups.at
    requires i < |names|
    ensures forall k | k in names[..i] && Sel(selected, k) :: k in groups.at
    ensures TypeFilter(selected, groups, names[..i + 1]) == TypeFilter(selected, groups, names[..i]) +
      (if Sel(selected, names[i]) then CharacteristicType + Join(groups.at[names[i]].characteristicGroups, CharacteristicType) else "")
  {
    assert names[..i + 1][..i] == names[..i];
  }

  /** The `forEach` of `toggleRow` that counts the selected rows. */
  method NumberSelected(selectedGroups: Obj<bool>) returns (numberSelected: nat)
    requires selectedGroups.Valid()
    ensures numberSelected == CountSelected(selectedGroups, selectedGroups.keys)
  {
    numberSelected := 0;
    var values := selectedGroups.Values();
    var keys := selectedGroups.keys;
    for i := 0 to |values|
      invariant numberSelected == CountSelected(selectedGroups, keys[..i])
    {
      assert keys[..i + 1][..i] == keys[..i];
      if values[i] {
        numberSelected := numberSelected + 1;
      }
    }
    assert keys[..|values|] == keys;
  }

  /** The `forEach` of `toggleRow` that adds up the selected rows' counts. */
  method SelectedMeasurements(groups: Obj<MappedGroup>, selectedGroups: Obj<bool>) returns (total: int)
    requires groups.Valid()
    ensures total == SelectedTotal(groups, selectedGroups, groups.keys)
  {
    total := 0;
    var keys := groups.keys;
    for i := 0 to |keys|
      invariant total == SelectedTotal(groups, selectedGroups, keys[..i])
    {
      assert keys[..i + 1][..i] == keys[..i];
      if keys[i] in selectedGroups.at && selectedGroups.at[keys[i]] {
        total := total + groups.at[keys[i]].resultCount;
      }
    }
    assert keys[..|keys|] == keys;
  }

  /** The table's state is consistent: the selection covers exactly the
      rows, every row lists a group, the select-all state matches the
      selection whenever there are rows, and the total and the filter are
      the ones the state calls for. */
  ghost predicate TableState(groups: Obj<MappedGroup>, selected: Obj<bool>, selectAll: int, total: int,
                             filter: string, stationTotal: int, timeframe: Option<(nat, nat)>) {
    && groups.Valid() && selected.Valid() && selected.keys == groups.keys
    && (forall g | g in groups.at :: groups.at[g].characteristicGroups != [])
    && 0 <= selectAll <= 2
    && (|groups.keys| > 0 ==> selectAll == SelectAllFor(CountSelected(selected, selected.keys), |groups.keys|))
    && total == TotalFor(selectAll, stationTotal, groups, selected)
    && filter == FilterFor(selectAll, selected, groups, timeframe)
  }

  /** Flipping a row and recomputing the state, the total and the filter
      from the new selection keeps the table consistent. */
  lemma RowToggled(groups: Obj<MappedGroup>, selected: Obj<bool>, selectAll: int, total: int,
                   filter: string, stationTotal: int, timeframe: Option<(nat, nat)>, g: string)
    requires TableState(groups, selected, selectAll, total, filter, stationTotal, timeframe)
    requires g in groups.at
    ensures var s := FlipRow(selected, g);
      var state := SelectAllFor(CountSelected(s, s.keys), |groups.keys|);
      && s.Valid() && s.keys == groups.keys
      && (forall k | k in s.keys && Sel(s, k) :: k in groups.at)
      && TableState(groups, s, state, TotalFor(state, stationTotal, groups, s),
                    FilterFor(state, s, groups, timeframe), stationTotal, timeframe)
  {
    PutValid(selected, g, !Sel(selected, g));
  }

  /** Setting every row to one value, with the state and total that go
      with it, keeps the table consistent. */
  lemma AllToggled(groups: Obj<MappedGroup>, selected: Obj<bool>, selectAll: int, total: int,
                   filter: string, stationTotal: int, timeframe: Option<(nat, nat)>)
    requires TableState(groups, selected, selectAll, total, filter, stationTotal, timeframe)
    ensures var s: Obj<bool> := if |groups.keys| > 0 then AllSet(groups.keys, selectAll == 0) else Empty();
      var state := if selectAll == 0 then 1 else 0;
      && (forall i, j | 0 <= i < j < |groups.keys| :: groups.keys[i] != groups.keys[j])
      && (forall k | k in s.keys && Sel(s, k) :: k in groups.at)
      && TableState(groups, s, state, if selectAll == 0 then stationTotal else 0,
                    FilterFor(state, s, groups, timeframe), stationTotal, timeframe)
  {
    var s: Obj<bool> := if |groups.keys| > 0 then AllSet(groups.keys, selectAll == 0) else Empty();
    var state := if selectAll == 0 then 1 else 0;
    assert s.keys == groups.keys;
    assert s.Valid();
    if |groups.keys| > 0 {
      CountSelectedMeaning(s, s.keys);
      if selectAll == 0 {
        assert forall k | k in s.keys :: Sel(s, k);
      } else {
        assert forall k | k in s.keys :: !Sel(s, k);
      }
      assert state == SelectAllFor(CountSelected(s, s.keys), |groups.keys|);
    }
  }

  /** The body of `toggleRow` after the flip: the select-all state from
      the number of selected rows, the total that goes with it, and the
      filter. */
  method Recount(groups: Obj<MappedGroup>, selectedGroups: Obj<bool>, stationTotal: int, timeframe: Option<(nat, nat)>)
    returns (newSelectAll: int, newTotal: int, filter: string)
    requires groups.Valid() && selectedGroups.Valid()
    requires forall k | k in selectedGroups.keys && Sel(selectedGroups, k) :: k in groups.at
    ensures newSelectAll == SelectAllFor(CountSelected(selectedGroups, selectedGroups.keys), |groups.keys|)
    ensures newTotal == TotalFor(newSelectAll, stationTotal, groups, selectedGroups)
    ensures filter == FilterFor(newSelectAll, selectedGroups, groups, timeframe)
  {
    var numberSelected := NumberSelected(selectedGroups);
    var totalSelections := |groups.keys|;
    if numberSelected == totalSelections {
      newSelectAll, newTotal := 1, stationTotal;
    } else if numberSelected == 0 {
      newSelectAll, newTotal := 0, 0;
    } else {
      var newTotalMeasurementCount := SelectedMeasurements(groups, selectedGroups);
      newSelectAll, newTotal := 2, newTotalMeasurementCount;
    }
    filter := BuildFilter(newSelectAll, selectedGroups, groups, timeframe);
  }

  /** The state of `MonitoringLocationsContent`: the built groups, the row
      selection, the select-all state, the shown total and the download
      filter, with the station's total and timeframe. */
  class MonitoringLocationsContent {
    var groups: Obj<MappedGroup>
    var selected: Obj<bool>
    var selectAll: int
    var totalMeasurements: int
    var charGroupFilters: string
    const stationTotalMeasurements: int
    const timeframe: Option<(nat, nat)>

    /** The table's state is consistent (see `TableState`). */
    ghost predicate Valid()
      reads this
    {
      TableState(groups, selected, selectAll, totalMeasurements, charGroupFilters, stationTotalMeasurements, timeframe)
    }

    /** The first render: the groups and selection `buildGroups` gives,
        everything selected, the station's total shown. */
    constructor (mappings: seq<SP.GroupMapping>, totalsByGroup: StationTotals, stationTotal: int, tf: Option<(nat, nat)>)
      requires totalsByGroup.TotalsByGroup? ==> totalsByGroup.counts.Valid()
      ensures Valid()
      ensures selectAll == 1 && totalMeasurements == stationTotal
      ensures forall g | g in groups.at :: Sel(selected, g)
    {
      var newGroups, newSelected := BuildGroups(mappings, totalsByGroup);
      groups := newGroups;
      selected := newSelected;
      selectAll := 1;
      stationTotalMeasurements := stationTotal;
      totalMeasurements := stationTotal;
      timeframe := tf;
      new;
      CountSelectedMeaning(selected, selected.keys);
      charGroupFilters := BuildFilter(selectAll, selected, groups, timeframe);
    }

    /** `toggleRow(groupLabel, groups)`: flips the row, then sets the
        select-all state from the number of selected rows and the total to
        match. */
    method ToggleRow(groupLabel: string)
      requires Valid() && groupLabel in groups.at
      modifies this
      ensures Valid()
      ensures selected == FlipRow(old(selected), groupLabel) && groups == old(groups)
      ensures selectAll == SelectAllFor(CountSelected(selected, selected.keys), |groups.keys|)
    {
      RowToggled(groups, selected, selectAll, totalMeasurements, charGroupFilters, stationTotalMeasurements, timeframe, groupLabel);
      var selectedGroups := FlipRow(selected, groupLabel);
      var newSelectAll, newTotal, filter := Recount(groups, selectedGroups, stationTotalMeasurements, timeframe);
      assert TableState(groups, selectedGroups, newSelectAll, newTotal, filter, stationTotalMeasurements, timeframe);
      selected, selectAll, totalMeasurements, charGroupFilters := selectedGroups, newSelectAll, newTotal, filter;
    }

    /** `toggleAllCheckboxes`: from state 0 every row is selected, state 1
        and the station's total; from any other state every row is
        cleared, state 0 and a zero total. */
    method ToggleAllCheckboxes()
      requires Valid()
      modifies this
      ensures Valid() && groups == old(groups)
      ensures selected == if |groups.keys| > 0 then AllSet(groups.keys, old(selectAll) == 0) else Empty()
      ensures selectAll == (if old(selectAll) == 0 then 1 else 0)
      ensures totalMeasurements == (if old(selectAll) == 0 then stationTotalMeasurements else 0)
    {
      AllToggled(groups, selected, selectAll, totalMeasurements, charGroupFilters, stationTotalMeasurements, timeframe);
      var selectedGroups: Obj<bool> := Empty();
      if |groups.keys| > 0 {
        var newValue := selectAll == 0;
        selectedGroups := SetAll(groups.keys, newValue);
      }
      var newTotal := if selectAll == 0 then stationTotalMeasurements else 0;
      var newSelectAll := if selectAll == 0 then 1 else 0;
      var filter := BuildFilter(newSelectAll, selectedGroups, groups, timeframe);
      assert TableState(groups, selectedGroups, newSelectAll, newTotal, filter, stationTotalMeasurements, timeframe);
      selected, selectAll, totalMeasurements, charGroupFilters := selectedGroups, newSelectAll, newTotal, filter;
    }
  }
}
