/** The endangered-species map page: the Overpass elements are walked in
    order, node coordinates are remembered by id, each way's node ids are
    replaced in place by the coordinates seen so far, and the way is drawn
    as a marker and a polygon (after an IPaC species query) or, when it
    carries a `waterway` tag, as a polyline. */
module Endangered {
  import opened Wrappers
  import opened JsStrings

  /** `[lat, lon]` of a node. */
  datatype Coord = Coord(lat: real, lon: real)

  /** One entry of a way's `nodes` array: a node id before resolution, the
      value `nodes.get` returned after it (`None` for `undefined`). */
  datatype Slot = Ref(id: int) | Resolved(at: Option<Coord>)

  /** An Overpass element; a way's node list is an array changed in place,
      and `None` tags stand for a way without a `tags` object. */
  datatype Element =
    | NodeElement(id: int, coord: Coord)
    | WayElement(nodes: array<Slot>, tags: Option<map<string, string>>)
    | OtherElement

  /** An element with its node list read out. */
  datatype Item =
    | NodeItem(id: int, coord: Coord)
    | WayItem(slots: seq<Slot>, tags: Option<map<string, string>>)
    | OtherItem

  /** The arrays of the ways. */
  function WayArrays(elements: seq<Element>): set<array<Slot>> {
    set i | 0 <= i < |elements| && elements[i].WayElement? :: elements[i].nodes
  }

  /** No two ways share a node array, as it is for parsed JSON. */
  predicate SeparateArrays(elements: seq<Element>) {
    forall i, j | 0 <= i < j < |elements| && elements[i].WayElement? && elements[j].WayElement? ::
      elements[i].nodes != elements[j].nodes
  }

  /** The elements as values. */
  ghost function Items(elements: seq<Element>): (items: seq<Item>)
    reads WayArrays(elements)
    ensures |items| == |elements|
    ensures forall i | 0 <= i < |elements| :: items[i] == ItemOf(elements[i])
  {
    if |elements| == 0 then []
    else
      assert WayArrays(elements[..|elements| - 1]) <= WayArrays(elements);
      Items(elements[..|elements| - 1]) + [ItemOf(elements[|elements| - 1])]
  }

  ghost function ItemOf(e: Element): Item
    reads if e.WayElement? then {e.nodes} else {}
  {
    match e
    case NodeElement(id, coord) => NodeItem(id, coord)
    case WayElement(nodes, tags) => WayItem(nodes[..], tags)
    case OtherElement => OtherItem
  }

  // ---------------------------------------------------------------------
  // The specification

  /** The `nodes` map after the first `k` items: every node sets its id,
      a later node with the same id overwriting an earlier one. */
  function NodesBefore(items: seq<Item>, k: nat): map<int, Coord>
    requires k <= |items|
  {
    if k == 0 then map[]
    else
      var m := NodesBefore(items, k - 1);
      match items[k - 1]
      case NodeItem(id, coord) => m[id := coord]
      case _ => m
  }

  /** `nodes.get` on a slot: a known id gives its coordinates, anything
      else `undefined`. */
  function Lookup(nodes: map<int, Coord>, s: Slot): Slot {
    match s
    case Ref(id) => Resolved(if id in nodes then Some(nodes[id]) else None)
    case Resolved(_) => Resolved(None)
  }

  /** A way's node list after resolution. */
  function Resolve(slots: seq<Slot>, nodes: map<int, Coord>): (r: seq<Slot>)
    ensures |r| == |slots|
    ensures forall i | 0 <= i < |slots| :: r[i] == Lookup(nodes, slots[i])
  {
    seq(|slots|, i requires 0 <= i < |slots| => Lookup(nodes, slots[i]))
  }

  /** The polygon branch's answer for a way's resolved points: the length
      of `resources.populationsBySid` the species query gives, or the error
      the branch throws (the GeoJSON conversion or `turf.polygon` refusing
      the ring, `getAllData` rejecting, or the field being absent). */
  type Populations = seq<Slot> -> Result<nat>

  /** The walk ends at item `i`: a way without tags, where reading
      `item.tags.waterway` throws, or a way without a `waterway` tag whose
      polygon branch throws. */
  predicate Stops(items: seq<Item>, i: nat, populations: Populations)
    requires i < |items|
  {
    && items[i].WayItem?
    && (|| items[i].tags.None?
        || ("waterway" !in items[i].tags.value
            && populations(Resolve(items[i].slots, NodesBefore(items, i))).Err?))
  }

  /** The first index from `k` on where the walk ends; `|items|` when it
      runs to the end. */
  function FirstStopFrom(items: seq<Item>, k: nat, populations: Populations): (n: nat)
    requires k <= |items|
    ensures k <= n <= |items|
    ensures n < |items| ==> Stops(items, n, populations)
    ensures forall i | k <= i < n :: !Stops(items, i, populations)
    decreases |items| - k
  {
    if k == |items| then k
    else if Stops(items, k, populations) then k
    else FirstStopFrom(items, k + 1, populations)
  }

  /** Where the walk ends. */
  function FirstStop(items: seq<Item>, populations: Populations): (n: nat)
    ensures n <= |items|
    ensures n < |items| ==> Stops(items, n, populations)
    ensures forall i | 0 <= i < n :: !Stops(items, i, populations)
  {
    FirstStopFrom(items, 0, populations)
  }

  /** What the walk throws at the way where it ends. */
  function StopError(items: seq<Item>, n: nat, populations: Populations): Error
    requires n < |items| && Stops(items, n, populations)
  {
    if items[n].tags.None? then TypeError
    else populations(Resolve(items[n].slots, NodesBefore(items, n))).error
  }

  /** The items after the loop: the ways up to and including index `n`
      are resolved against the nodes before them, the rest untouched. */
  function Processed(items: seq<Item>, n: nat): (r: seq<Item>)
    requires n <= |items|
    ensures |r| == |items|
  {
    seq(|items|, i requires 0 <= i < |items| =>
      if i <= n && items[i].WayItem? then WayItem(Resolve(items[i].slots, NodesBefore(items, i)), items[i].tags)
      else items[i])
  }

  /** What the page draws: the marker at a polygon's centre of mass with
      its popup text (the centre itself is computed by turf and not
      modelled), a polygon, or a polyline. */
  datatype Shape = Marker(popup: string) | Polygon(points: seq<Slot>) | Polyline(points: seq<Slot>)

  /** The popup of every marker: the species count is read into a flag
      that nothing reads, so the text is the same for every way. */
  const Popup := "Looks good! Have fun!"

  /** What a tagged way with resolved points draws once its polygon
      branch, if taken, has not thrown: a marker and a polygon, or a
      polyline for a `waterway`. */
  function Drawn(points: seq<Slot>, tags: map<string, string>): seq<Shape> {
    if "waterway" !in tags then [Marker(Popup), Polygon(points)] else [Polyline(points)]
  }

  /** The shapes drawn for the first `k` items, in order. */
  function Shapes(items: seq<Item>, k: nat, populations: Populations): seq<Shape>
    requires k <= FirstStop(items, populations)
  {
    if k == 0 then []
    else
      var before := Shapes(items, k - 1, populations);
      assert !Stops(items, k - 1, populations);
      match items[k - 1]
      case WayItem(slots, tags) =>
        before + Drawn(Resolve(slots, NodesBefore(items, k - 1)), tags.value)
      case _ => before
  }

  // ---------------------------------------------------------------------
  // Properties

  /** A node id is known after `k` items exactly when a node with that id
      came before, and then it holds the coordinates of the last such
      node. */
  lemma {:induction false} NodesBeforeLastWrite(items: seq<Item>, k: nat, id: int)
    requires k <= |items|
    ensures id in NodesBefore(items, k) <==> exists j | 0 <= j < k :: items[j].NodeItem? && items[j].id == id
    ensures forall j | 0 <= j < k && items[j].NodeItem? && items[j].id == id
      && (forall l | j < l < k :: !(items[l].NodeItem? && items[l].id == id)) ::
      NodesBefore(items, k)[id] == items[j].coord
  {
    NodesBeforeKnown(items, k, id);
    forall j | 0 <= j < k && items[j].NodeItem? && items[j].id == id
      && (forall l | j < l < k :: !(items[l].NodeItem? && items[l].id == id))
      ensures NodesBefore(items, k)[id] == items[j].coord
    {
      NodesBeforeLast(items, k, id, j);
    }
  }

  /** The key half of `NodesBeforeLastWrite`. */
  lemma {:induction false} NodesBeforeKnown(items: seq<Item>, k: nat, id: int)
    requires k <= |items|
    ensures id in NodesBefore(items, k) <==> exists j | 0 <= j < k :: items[j].NodeItem? && items[j].id == id
  {
    if k > 0 {
      NodesBeforeKnown(items, k - 1, id);
      if items[k - 1].NodeItem? && items[k - 1].id == id {
        assert id in NodesBefore(items, k);
      } else {
        assert id in NodesBefore(items, k) <==> id in NodesBefore(items, k - 1);
      }
    }
  }

  /** The value half of `NodesBeforeLastWrite`: the last node with the id
      before `k` is the one the map holds. */
  lemma {:induction false} NodesBeforeLast(items: seq<Item>, k: nat, id: int, j: nat)
    requires j < k <= |items| && items[j].NodeItem? && items[j].id == id
    requires forall l | j < l < k :: !(items[l].NodeItem? && items[l].id == id)
    ensures id in NodesBefore(items, k) && NodesBefore(items, k)[id] == items[j].coord
  {
    if j < k - 1 {
      NodesBeforeLast(items, k - 1, id, j);
      assert !(items[k - 1].NodeItem? && items[k - 1].id == id);
    }
  }

  /** The species count changes nothing that is drawn: two answers of
      the polygon branch that throw on the same ways stop the walk at the
      same place and draw the same shapes. */
  lemma {:induction false} ShapesIgnoreCount(items: seq<Item>, k: nat, p: Populations, q: Populations)
    requires forall points :: p(points).Err? == q(points).Err?
    requires k <= FirstStop(items, p)
    ensures k <= FirstStop(items, q)
    ensures Shapes(items, k, p) == Shapes(items, k, q)
  {
    var n := FirstStop(items, q);
    if n < k {
      assert Stops(items, n, q);
      assert Stops(items, n, p);
    }
    if k > 0 {
      ShapesIgnoreCount(items, k - 1, p, q);
    }
  }

  /** A way's slot resolves to coordinates exactly when its id belongs to
      a node listed before the way; ids of later nodes become
      `undefined`. */
  lemma ResolvesOnlyEarlierNodes(items: seq<Item>, n: nat, i: nat, s: nat)
    requires n <= |items| && i <= n && i < |items| && items[i].WayItem?
    requires s < |items[i].slots| && items[i].slots[s].Ref?
    ensures Processed(items, n)[i].slots[s].Resolved?
    ensures Processed(items, n)[i].slots[s].at.Some? <==>
      exists j | 0 <= j < i :: items[j].NodeItem? && items[j].id == items[i].slots[s].id
  {
    NodesBeforeLastWrite(items, i, items[i].slots[s].id);
  }

  /** The IPaC query text: only the first `"POLYGON"` of the WKT becomes
      `"Polygon"`; the text after it is kept as it was. */
  function IpacWkt(wkt: string): string {
    ReplaceFirst(wkt, "POLYGON", "Polygon")
  }

  lemma IpacWktFirstOnly(wkt: string)
    ensures IndexOf(wkt, "POLYGON", 0).None? ==> IpacWkt(wkt) == wkt
    ensures IndexOf(wkt, "POLYGON", 0).Some? ==>
      var i := IndexOf(wkt, "POLYGON", 0).value;
      && IpacWkt(wkt) == wkt[..i] + "Polygon" + wkt[i + 7..]
      && forall j | 0 <= j < i :: !OccursAt(wkt, "POLYGON", j)
  {
    ReplaceFirstLiteral(wkt, "POLYGON", "Polygon");
  }

  // ---------------------------------------------------------------------
  // The loop

  /** The inner `for` loop: each slot of the way is replaced by what the
      node map holds for it. */
  method ResolveWay(a: array<Slot>, nodes: map<int, Coord>)
    modifies a
    ensures a[..] == Resolve(old(a[..]), nodes)
  {
    var i := 0;
    while i < a.Length
      invariant i <= a.Length
      invariant forall j | 0 <= j < i :: a[j] == Lookup(nodes, old(a[j]))
      invariant forall j | i <= j < a.Length :: a[j] == old(a[j])
    {
      a[i] := Lookup(nodes, a[i]);
      i := i + 1;
    }
  }

  /** The loop's picture of the elements: `items` are the elements as
      they were, and the ways before index `k` are resolved. */
  ghost predicate ResolvedBefore(elements: seq<Element>, items: seq<Item>, k: nat)
    reads WayArrays(elements)
  {
    && |items| == |elements|
    && (forall j | 0 <= j < |elements| && !elements[j].WayElement? :: items[j] == ItemOf(elements[j]))
    && (forall j | 0 <= j < |elements| && elements[j].WayElement? ::
         items[j].WayItem? && items[j].tags == elements[j].tags)
    && (forall j | 0 <= j < |elements| && elements[j].WayElement? ::
         elements[j].nodes[..] == (if j < k then Resolve(items[j].slots, NodesBefore(items, j)) else items[j].slots))
  }

  /** Once every way up to `n` is resolved, the elements are the
      processed items. */
  lemma ResolvedBeforeProcessed(elements: seq<Element>, items: seq<Item>, n: nat)
    requires n <= |items| && ResolvedBefore(elements, items, if n < |items| then n + 1 else n)
    ensures Items(elements) == Processed(items, n)
  {
    assert forall j | 0 <= j < |elements| :: Items(elements)[j] == Processed(items, n)[j];
  }

  /** One turn of the element loop: a node is remembered; a way is
      resolved and then drawn, or the walk throws there when the way has no
      tags or its polygon branch throws. */
  method Step(elements: seq<Element>, populations: Populations, ghost items: seq<Item>, k: nat,
              nodes: map<int, Coord>, shapes: seq<Shape>)
    returns (nodes': map<int, Coord>, shapes': seq<Shape>, thrown: Option<Error>)
    requires SeparateArrays(elements) && k < |elements| && ResolvedBefore(elements, items, k)
    requires k <= FirstStop(items, populations) && nodes == NodesBefore(items, k) && shapes == Shapes(items, k, populations)
    modifies WayArrays(elements)
    ensures ResolvedBefore(elements, items, k + 1)
    ensures thrown.Some? <==> k == FirstStop(items, populations)
    ensures thrown.None? ==> nodes' == NodesBefore(items, k + 1) && shapes' == Shapes(items, k + 1, populations)
    ensures thrown.Some? ==> thrown.value == StopError(items, k, populations) && shapes' == shapes
  {
    nodes', shapes', thrown := nodes, shapes, None;
    match elements[k] {
      case NodeElement(id, coord) =>
        assert items[k] == NodeItem(id, coord);
        nodes' := nodes[id := coord];
      case WayElement(a, tags) =>
        assert items[k] == WayItem(a[..], tags);
        ResolveWay(a, nodes);
        assert forall j | 0 <= j < |elements| && j != k && elements[j].WayElement? :: elements[j].nodes != a;
        assert a[..] == Resolve(items[k].slots, NodesBefore(items, k));
        if tags.None? {
          assert Stops(items, k, populations);
          return nodes', shapes', Some(TypeError);
        }
        if "waterway" !in tags.value {
          var answer := populations(a[..]);
          if answer.Err? {
            assert Stops(items, k, populations);
            return nodes', shapes', Some(answer.error);
          }
        }
        assert !Stops(items, k, populations);
        assert Shapes(items, k + 1, populations) == shapes + Drawn(a[..], tags.value);
        shapes' := shapes + Drawn(a[..], tags.value);
      case OtherElement =>
        assert items[k] == OtherItem;
    }
  }

  /** `updateWaterways` after the Overpass response: the elements in list
      order, the node map, the ways resolved in place and the shapes drawn.
      The walk throws at the first way without tags or whose polygon branch
      throws, once that way's nodes are resolved; the way is not drawn. */
  method UpdateWaterways(elements: seq<Element>, populations: Populations) returns (shapes: seq<Shape>, r: Result<()>)
    requires SeparateArrays(elements)
    modifies WayArrays(elements)
    ensures var items := old(Items(elements));
      var n := FirstStop(items, populations);
      && Items(elements) == Processed(items, n)
      && shapes == Shapes(items, n, populations)
      && (r.Err? <==> n < |elements|)
      && (r.Err? ==> r.error == StopError(items, n, populations))
  {
    ghost var items := Items(elements);
    ghost var n := FirstStop(items, populations);
    var nodes: map<int, Coord> := map[];
    shapes := [];
    var k := 0;
    while k < |elements|
      invariant k <= n
      invariant nodes == NodesBefore(items, k)
      invariant shapes == Shapes(items, k, populations)
      invariant ResolvedBefore(elements, items, k)
    {
      var thrown;
      nodes, shapes, thrown := Step(elements, populations, items, k, nodes, shapes);
      if thrown.Some? {
        assert k == n;
        ResolvedBeforeProcessed(elements, items, n);
        return shapes, Err(thrown.value);
      }
      k := k + 1;
    }
    assert n == |elements|;
    ResolvedBeforeProcessed(elements, items, n);
    r := Ok(());
  }
}
