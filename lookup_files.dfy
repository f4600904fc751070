/** The lookup-file context: each lookup file is fetched once, the first
    time its hook runs, and its state moves from `fetching` to `success` or
    `failure` when the fetch settles. The services file also builds the
    analytics URL mapping, whose base URLs are found by walking a dotted
    path through the file's own data. */
module LookupFiles {
  import opened Wrappers
  import opened JsStrings

  /** A parsed JSON value, with `undefined` for a missing property. */
  datatype Json =
    | Undefined
    | Null
    | Bool(b: bool)
    | Num(n: int)
    | Str(s: string)
    | Arr(items: seq<Json>)
    | Object(fields: map<string, Json>)

  /** `v[key]`: a read from `undefined` or `null` throws; a plain object
      gives its own property, or `undefined`. */
  function Get(v: Json, key: string): Result<Json> {
    match v
    case Undefined => Err(TypeError)
    case Null => Err(TypeError)
    case Object(fields) => Ok(if key in fields then fields[key] else Undefined)
    case _ => Ok(Undefined)
  }

  /** The value reached by reading the properties of `path` one after the
      other, starting from `v`. */
  function Walk(v: Json, path: seq<string>): Result<Json>
    decreases |path|
  {
    if |path| == 0 then Ok(v)
    else
      match Get(v, path[0])
      case Err(e) => Err(e)
      case Ok(w) => Walk(w, path[1..])
  }

  /** Walking a path in two pieces is walking it whole. */
  lemma {:induction false} WalkConcat(v: Json, p: seq<string>, q: seq<string>)
    ensures Walk(v, p + q) == match Walk(v, p) case Err(e) => Err(e) case Ok(w) => Walk(w, q)
    decreases |p|
  {
    if |p| > 0 {
      assert (p + q)[1..] == p[1..] + q;
      match Get(v, p[0])
      case Err(e) =>
      case Ok(w) => WalkConcat(w, p[1..], q);
    } else {
      assert p + q == q;
    }
  }

  /** The walk throws exactly when one of its proper prefixes leads to
      `undefined` or `null`. */
  lemma {:induction false} WalkFails(v: Json, p: seq<string>)
    ensures Walk(v, p).Err? <==> exists i | 0 <= i < |p| :: Walk(v, p[..i]) == Ok(Undefined) || Walk(v, p[..i]) == Ok(Null)
    decreases |p|
  {
    if |p| > 0 {
      assert p[..0] == [];
      match Get(v, p[0])
      case Err(e) =>
      case Ok(w) =>
        WalkFails(w, p[1..]);
        forall i | 1 <= i <= |p| ensures Walk(v, p[..i]) == Walk(w, p[1..][..i - 1]) {
          assert p[..i][1..] == p[1..][..i - 1];
        }
        if exists i | 0 <= i < |p| - 1 :: Walk(w, p[1..][..i]) == Ok(Undefined) || Walk(w, p[1..][..i]) == Ok(Null) {
          var i :| 0 <= i < |p| - 1 && (Walk(w, p[1..][..i]) == Ok(Undefined) || Walk(w, p[1..][..i]) == Ok(Null));
          assert Walk(v, p[..i + 1]) == Walk(w, p[1..][..i]);
        }
        if exists i | 0 <= i < |p| :: Walk(v, p[..i]) == Ok(Undefined) || Walk(v, p[..i]) == Ok(Null) {
          var i :| 0 <= i < |p| && (Walk(v, p[..i]) == Ok(Undefined) || Walk(v, p[..i]) == Ok(Null));
          assert i >= 1;
          assert Walk(w, p[1..][..i - 1]) == Walk(v, p[..i]);
        }
    }
  }

  /** The `forEach` over the path parts that reassigns `urlLookup`. */
  method ResolvePath(data: Json, path: seq<string>) returns (r: Result<Json>)
    ensures r == Walk(data, path)
  {
    var urlLookup := data;
    var i := 0;
    while i < |path|
      invariant i <= |path|
      invariant Walk(data, path) == Walk(urlLookup, path[i..])
    {
      assert path[i..][1..] == path[i + 1..];
      var next := Get(urlLookup, path[i]);
      if next.Err? {
        return Err(next.error);
      }
      urlLookup := next.value;
      i := i + 1;
    }
    return Ok(urlLookup);
  }

  /** String conversion of a value, as `replace` and template literals do
      it: an array joins its elements' text with commas, with `null` and
      `undefined` elements empty. */
  function JsText(v: Json): string
    decreases v
  {
    match v
    case Undefined => "undefined"
    case Null => "null"
    case Bool(b) => if b then "true" else "false"
    case Num(n) => if n < 0 then "-" + Decimal(-n) else Decimal(n)
    case Str(s) => s
    case Object(_) => "[object Object]"
    case Arr(items) =>
      Join(seq(|items|, i requires 0 <= i < |items| =>
        if items[i].Undefined? || items[i].Null? then "" else JsText(items[i])), ",")
  }

  // ---------------------------------------------------------------------
  // The analytics URL mapping

  /** One entry of `googleAnalyticsMapping`. */
  datatype AnalyticsEntry = AnalyticsEntry(wildcardUrl: string, name: Json)

  const Placeholder: string := "{urlLookup}"

  /** The base URL of a mapping item: the origin for `'origin'`, otherwise
      the value its dotted `urlLookup` path reaches in the services data;
      a `urlLookup` that is not a string cannot be split and throws. */
  function BaseUrl(data: Json, origin: string, item: Json): Result<Json> {
    match Get(item, "urlLookup")
    case Err(e) => Err(e)
    case Ok(lookup) =>
      if lookup == Str("origin") then Ok(Str(origin))
      else if !lookup.Str? then Err(TypeError)
      else Walk(data, Split(lookup.s, "."))
  }

  /** The entry built from one item: its `wildcardUrl` with every
      placeholder replaced by the base URL's text, and its `name`. */
  function MappingEntry(data: Json, origin: string, item: Json): Result<AnalyticsEntry> {
    match BaseUrl(data, origin, item)
    case Err(e) => Err(e)
    case Ok(base) =>
      match Get(item, "wildcardUrl")
      case Err(e) => Err(e)
      case Ok(w) =>
        if !w.Str? then Err(TypeError)
        else
          match Get(item, "name")
          case Err(e) => Err(e)
          case Ok(name) => Ok(AnalyticsEntry(ReplaceAll(w.s, Placeholder, JsText(base)), name))
  }

  /** The entries of a list of items, in order; the first item that throws
      ends the whole computation. */
  function Mapping(data: Json, origin: string, items: seq<Json>): Result<seq<AnalyticsEntry>> {
    if |items| == 0 then Ok([])
    else
      match Mapping(data, origin, items[..|items| - 1])
      case Err(e) => Err(e)
      case Ok(m) =>
        match MappingEntry(data, origin, items[|items| - 1])
        case Err(e) => Err(e)
        case Ok(entry) => Ok(m + [entry])
  }

  /** The mapping built from the services data. */
  function AnalyticsMapping(data: Json, origin: string): Result<seq<AnalyticsEntry>> {
    match Get(data, "googleAnalyticsMapping")
    case Err(e) => Err(e)
    case Ok(list) => if !list.Arr? then Err(TypeError) else Mapping(data, origin, list.items)
  }

  /** The mapping succeeds exactly when every item's entry does, and then
      keeps the items' order and count. */
  lemma {:induction false} MappingMembers(data: Json, origin: string, items: seq<Json>)
    ensures Mapping(data, origin, items).Ok? <==> forall i | 0 <= i < |items| :: MappingEntry(data, origin, items[i]).Ok?
    ensures Mapping(data, origin, items).Ok? ==>
      var m := Mapping(data, origin, items).value;
      |m| == |items| && forall i | 0 <= i < |items| :: m[i] == MappingEntry(data, origin, items[i]).value
  {
    if |items| > 0 {
      var init := items[..|items| - 1];
      var last := items[|items| - 1];
      MappingMembers(data, origin, init);
      assert forall i | 0 <= i < |init| :: init[i] == items[i];
      if Mapping(data, origin, init).Ok? && MappingEntry(data, origin, last).Ok? {
        var m := Mapping(data, origin, init).value;
        var full := m + [MappingEntry(data, origin, last).value];
        assert Mapping(data, origin, items) == Ok(full);
        forall i | 0 <= i < |items|
          ensures MappingEntry(data, origin, items[i]).Ok? && full[i] == MappingEntry(data, origin, items[i]).value
        {
          if i < |init| {
            assert items[i] == init[i] && full[i] == m[i];
          }
        }
      } else if Mapping(data, origin, init).Ok? {
        assert !MappingEntry(data, origin, items[|items| - 1]).Ok?;
      } else {
        var i :| 0 <= i < |init| && !MappingEntry(data, origin, init[i]).Ok?;
        assert !MappingEntry(data, origin, items[i]).Ok?;
      }
    }
  }

  /** Once a prefix of the items throws, so does the whole list, with the
      same error. */
  lemma {:induction false} MappingErrorStays(data: Json, origin: string, items: seq<Json>, n: nat, e: Error)
    requires n <= |items| && Mapping(data, origin, items[..n]) == Err(e)
    ensures Mapping(data, origin, items) == Err(e)
    decreases |items| - n
  {
    if n < |items| {
      assert items[..n + 1][..n] == items[..n];
      MappingErrorStays(data, origin, items, n + 1, e);
    } else {
      assert items[..n] == items;
    }
  }

  /** The `forEach` that builds the mapping, stopping at the first item
      that throws. */
  method BuildAnalyticsMapping(data: Json, origin: string) returns (r: Result<seq<AnalyticsEntry>>)
    ensures r == AnalyticsMapping(data, origin)
  {
    var list := Get(data, "googleAnalyticsMapping");
    if list.Err? {
      return Err(list.error);
    }
    if !list.value.Arr? {
      return Err(TypeError);
    }
    var items := list.value.items;
    var googleAnalyticsMapping: seq<AnalyticsEntry> := [];
    var i := 0;
    while i < |items|
      invariant i <= |items|
      invariant Mapping(data, origin, items[..i]) == Ok(googleAnalyticsMapping)
    {
      assert items[..i + 1][..i] == items[..i];
      var entry := BuildEntry(data, origin, items[i]);
      if entry.Err? {
        MappingErrorStays(data, origin, items, i + 1, entry.error);
        return Err(entry.error);
      }
      googleAnalyticsMapping := googleAnalyticsMapping + [entry.value];
      i := i + 1;
    }
    assert items[..i] == items;
    return Ok(googleAnalyticsMapping);
  }

  /** The body of that `forEach` for one item. */
  method BuildEntry(data: Json, origin: string, item: Json) returns (r: Result<AnalyticsEntry>)
    ensures r == MappingEntry(data, origin, item)
  {
    var lookup := Get(item, "urlLookup");
    if lookup.Err? {
      return Err(lookup.error);
    }
    var urlLookup := Str(origin);
    if lookup.value != Str("origin") {
      if !lookup.value.Str? {
        return Err(TypeError);
      }
      var pathParts := Split(lookup.value.s, ".");
      var walked := ResolvePath(data, pathParts);
      if walked.Err? {
        return Err(walked.error);
      }
      urlLookup := walked.value;
    }
    // `item` was read from once already, so the reads below cannot throw.
    var wildcardUrl := Get(item, "wildcardUrl").value;
    if !wildcardUrl.Str? {
      return Err(TypeError);
    }
    var name := Get(item, "name").value;
    return Ok(AnalyticsEntry(ReplaceAll(wildcardUrl.s, Placeholder, JsText(urlLookup)), name));
  }

  /** An item whose `urlLookup` is `'origin'` has every placeholder of its
      `wildcardUrl` replaced by the origin: the result is the
      placeholder-free pieces of the URL joined by the origin. */
  lemma OriginReplacesEveryPlaceholder(data: Json, origin: string, item: Json, wildcardUrl: string)
    requires Get(item, "urlLookup") == Ok(Str("origin"))
    requires Get(item, "wildcardUrl") == Ok(Str(wildcardUrl))
    requires '$' !in origin
    ensures MappingEntry(data, origin, item).Ok?
    ensures MappingEntry(data, origin, item).value.wildcardUrl == Join(Split(wildcardUrl, Placeholder), origin)
    ensures forall p | p in Split(wildcardUrl, Placeholder) :: Free(p, Placeholder)
    ensures MappingEntry(data, origin, item).value.name == Get(item, "name").value
  {
    ReplaceAllIsSplitJoin(wildcardUrl, Placeholder, origin, 0);
    SplitPiecesFree(wildcardUrl, Placeholder, 0);
  }

  /** An item with any other `urlLookup` gets the text of the value its
      path reaches, and throws when the path runs through `undefined` or
      `null`. */
  lemma PathBaseUrl(data: Json, origin: string, item: Json, lookup: string)
    requires Get(item, "urlLookup") == Ok(Str(lookup)) && lookup != "origin"
    ensures BaseUrl(data, origin, item) == Walk(data, Split(lookup, "."))
    ensures var p := Split(lookup, ".");
      BaseUrl(data, origin, item).Err? <==> exists i | 0 <= i < |p| :: Walk(data, p[..i]) == Ok(Undefined) || Walk(data, p[..i]) == Ok(Null)
  {
    WalkFails(data, Split(lookup, "."));
  }

  // ---------------------------------------------------------------------
  // The context state

  /** `'fetching' | 'success' | 'failure'` */
  datatype Status = Fetching | Success | Failure

  /** The `{ status, data }` state of one lookup. */
  datatype LookupState = LookupState(status: Status, data: Json)

  /** The lookups of the context, one per hook. */
  datatype Key =
    | DocumentOrder | ReportStatusMapping | StateNationalUses | SurveyMapping
    | WaterTypeOptions | Nars | Notifications | EducatorMaterials | Services | Organizations

  /** The lookups fetched through `getLookupFile`. */
  predicate IsPlainFile(k: Key) {
    k != Services && k != Organizations
  }

  /** The file each lookup-file hook fetches. */
  function FileName(k: Key): string
    requires IsPlainFile(k)
  {
    match k
    case DocumentOrder => "state/documentOrder.json"
    case ReportStatusMapping => "state/reportStatusMapping.json"
    case StateNationalUses => "state/stateNationalUses.json"
    case SurveyMapping => "state/surveyMapping.json"
    case WaterTypeOptions => "state/waterTypeOptions.json"
    case Nars => "national/NARS.json"
    case Notifications => "notifications/messages.json"
    case EducatorMaterials => "educators.json"
  }

  /** The provider's initial state: every lookup is `fetching`, with an
      empty list for the list-valued files and an empty object otherwise. */
  function InitialState(k: Key): LookupState {
    LookupState(Fetching,
      if k == StateNationalUses || k == SurveyMapping || k == Notifications then Arr([]) else Object(map[]))
  }

  /** The browser location the services hook reads. */
  datatype Location = Location(protocol: string, hostname: string, origin: string)

  /** The origin used for proxy calls: port 9091 of the local host during
      development, the page's origin otherwise. */
  function Origin(loc: Location): string {
    if loc.hostname == "localhost" then loc.protocol + "//" + loc.hostname + ":9091" else loc.origin
  }

  /** The fields the organizations query asks for. */
  const OutFields: seq<string> := ["organizationid", "orgtype", "reportingcycle", "state"]

  /** The organizations query against the control table. */
  function OrganizationsUrl(controlTable: Json): string {
    JsText(controlTable) + "/query?where=1%3D1&outFields=" + Join(OutFields, "%2C") + "&f=json"
  }

  /** The value of a caught exception. */
  function Thrown(e: Error): Json {
    match e
    case TypeError => Str("TypeError")
    case InvalidAction => Str("Error")
    case LibraryError => Str("Error")
  }

  predicate NoDuplicates<T(==)>(s: seq<T>) {
    forall i, j | 0 <= i < j < |s| :: s[i] != s[j]
  }

  /** The lookup states, the module-level `*Initialized` flags, the
      requests made (in order), the origin captured by the services fetch
      and the global analytics mapping. */
  class Lookups {
    var states: map<Key, LookupState>
    var initialized: set<Key>
    var requests: seq<Key>
    var origin: Option<string>
    var googleAnalyticsMapping: Option<seq<AnalyticsEntry>>

    /** Every lookup has a state; one never requested is still in its
        initial state; each lookup was requested at most once, and only
        after its flag was set. */
    ghost predicate Valid()
      reads this
    {
      && (forall k: Key :: k in states)
      && (forall k: Key :: k !in requests ==> states[k] == InitialState(k))
      && (forall k: Key :: k in requests ==> k in initialized)
      && NoDuplicates(requests)
      && (Services in requests <==> origin.Some?)
    }

    constructor ()
      ensures Valid()
      ensures forall k: Key :: states[k] == InitialState(k)
      ensures initialized == {} && requests == []
      ensures origin == None && googleAnalyticsMapping == None
    {
      states := map k: Key | true :: InitialState(k);
      initialized := {};
      requests := [];
      origin := None;
      googleAnalyticsMapping := None;
    }

    /** A lookup-file hook (`useDocumentOrderContext` and the others built
        on `getLookupFile`): the first call sets the flag and requests the
        file; later calls request nothing. It returns the current state. */
    method UseLookupFile(k: Key) returns (state: LookupState, fetched: Option<string>)
      requires Valid() && IsPlainFile(k)
      modifies this
      ensures Valid()
      ensures state == states[k] && states == old(states)
      ensures k in old(initialized) ==> fetched == None && initialized == old(initialized) && requests == old(requests)
      ensures k !in old(initialized) ==> (fetched == Some(FileName(k)) && initialized == old(initialized) + {k}
        && requests == old(requests) + [k])
      ensures origin == old(origin) && googleAnalyticsMapping == old(googleAnalyticsMapping)
    {
      fetched := None;
      if k !in initialized {
        initialized := initialized + {k};
        requests := requests + [k];
        fetched := Some(FileName(k));
      }
      state := states[k];
    }

    /** `getLookupFile`, or the organizations query, once the fetch
        resolves. */
    method Resolved(k: Key, data: Json)
      requires Valid() && k != Services && k in requests
      modifies this
      ensures Valid()
      ensures states == old(states)[k := LookupState(Success, data)]
      ensures initialized == old(initialized) && requests == old(requests)
      ensures origin == old(origin) && googleAnalyticsMapping == old(googleAnalyticsMapping)
    {
      states := states[k := LookupState(Success, data)];
    }

    /** Any lookup whose request is rejected. */
    method Rejected(k: Key, err: Json)
      requires Valid() && k in requests
      modifies this
      ensures Valid()
      ensures states == old(states)[k := LookupState(Failure, err)]
      ensures initialized == old(initialized) && requests == old(requests)
      ensures origin == old(origin) && googleAnalyticsMapping == old(googleAnalyticsMapping)
    {
      states := states[k := LookupState(Failure, err)];
    }

    /** `useServicesContext`: the first call sets the flag, records the
        origin for the mapping and requests the services file. */
    method UseServices(loc: Location) returns (state: LookupState, fetched: Option<string>)
      requires Valid()
      modifies this
      ensures Valid()
      ensures state == states[Services] && states == old(states)
      ensures Services in old(initialized) ==> (fetched == None && initialized == old(initialized)
        && requests == old(requests) && origin == old(origin))
      ensures Services !in old(initialized) ==> (fetched == Some("config/services.json")
        && initialized == old(initialized) + {Services} && requests == old(requests) + [Services]
        && origin == Some(Origin(loc)))
      ensures googleAnalyticsMapping == old(googleAnalyticsMapping)
    {
      fetched := None;
      if Services !in initialized {
        initialized := initialized + {Services};
        origin := Some(Origin(loc));
        requests := requests + [Services];
        fetched := Some("config/services.json");
      }
      state := states[Services];
    }

    /** The services file arrived: the mapping is built and published and
        the state becomes `success`; an item that throws makes it
        `failure` instead, with nothing published. */
    method ServicesResolved(data: Json)
      requires Valid() && Services in requests
      modifies this
      ensures Valid()
      ensures var m := AnalyticsMapping(data, old(origin).value);
        && (m.Ok? ==> states == old(states)[Services := LookupState(Success, data)] && googleAnalyticsMapping == Some(m.value))
        && (m.Err? ==> (states == old(states)[Services := LookupState(Failure, Thrown(m.error))]
             && googleAnalyticsMapping == old(googleAnalyticsMapping)))
      ensures initialized == old(initialized) && requests == old(requests) && origin == old(origin)
    {
      var m := BuildAnalyticsMapping(data, origin.value);
      if m.Err? {
        states := states[Services := LookupState(Failure, Thrown(m.error))];
        return;
      }
      googleAnalyticsMapping := Some(m.value);
      states := states[Services := LookupState(Success, data)];
    }

    /** `useOrganizationsContext`: only once, and only after the services
        file is `success`, it sets the flag and queries the control table
        named in the services data; a missing `waterbodyService` throws
        from the hook after the flag is set. It returns the current state. */
    method UseOrganizations() returns (r: Result<LookupState>, fetched: Option<string>)
      requires Valid()
      modifies this
      ensures Valid()
      ensures states == old(states) && origin == old(origin) && googleAnalyticsMapping == old(googleAnalyticsMapping)
      ensures var go := Organizations !in old(initialized) && old(states)[Services].status == Success;
        var table := Walk(old(states)[Services].data, ["waterbodyService", "controlTable"]);
        && (!go ==> (r == Ok(states[Organizations]) && fetched == None
             && initialized == old(initialized) && requests == old(requests)))
        && (go ==> initialized == old(initialized) + {Organizations})
        && (go && table.Err? ==> r == Err(table.error) && fetched == None && requests == old(requests))
        && (go && table.Ok? ==> (r == Ok(states[Organizations]) && fetched == Some(OrganizationsUrl(table.value))
             && requests == old(requests) + [Organizations]))
    {
      fetched := None;
      if Organizations !in initialized && states[Services].status == Success {
        initialized := initialized + {Organizations};
        var table := ResolvePath(states[Services].data, ["waterbodyService", "controlTable"]);
        if table.Err? {
          return Err(table.error), None;
        }
        assert Organizations !in requests;
        requests := requests + [Organizations];
        fetched := Some(OrganizationsUrl(table.value));
      }
      r := Ok(states[Organizations]);
    }
  }
}
