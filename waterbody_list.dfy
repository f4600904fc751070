/** The state page's list of waterbodies: a spinner while loading, a
    message for an empty list, otherwise the list sorted in place by the
    chosen attribute, each row with a highlight status, a key and an
    expanded flag kept in `expandedRows`. */
module WaterbodyList {
  import opened Wrappers
  import opened JsStrings

  /** A waterbody graphic; `None` attributes stand for a graphic without
      an `attributes` object. */
  datatype Graphic = Graphic(attributes: Option<map<string, string>>)

  /** `attributes[name]`, `None` when missing. */
  function Attribute(g: Graphic, name: string): Option<string> {
    if g.attributes.Some? && name in g.attributes.value then Some(g.attributes.value[name]) else None
  }

  /** The attribute as a string is concatenated: a missing one reads
      `"undefined"`. */
  function AttributeText(g: Graphic, name: string): string {
    Attribute(g, name).GetOr("undefined")
  }

  // ---------------------------------------------------------------------
  // Sorting

  /** The comparator `a.attributes[sortBy].localeCompare(b.attributes[sortBy])`
      read as an order: `le` is `localeCompare(a, b) <= 0`. */
  function ByAttribute(sortBy: string, le: (string, string) -> bool): (Graphic, Graphic) -> bool {
    (a: Graphic, b: Graphic) => le(AttributeText(a, sortBy), AttributeText(b, sortBy))
  }

  /** Every waterbody has the attribute the comparator reads. */
  predicate Sortable(ws: seq<Graphic>, sortBy: string) {
    forall i | 0 <= i < |ws| :: Attribute(ws[i], sortBy).Some?
  }

  /** A total order on the attribute gives a total order on waterbodies. */
  lemma ByAttributeTotal(sortBy: string, le: (string, string) -> bool)
    requires Total(le)
    ensures Total(ByAttribute(sortBy, le))
  {
    forall a: Graphic, b: Graphic ensures ByAttribute(sortBy, le)(a, b) || ByAttribute(sortBy, le)(b, a) {
      assert le(AttributeText(a, sortBy), AttributeText(b, sortBy)) || le(AttributeText(b, sortBy), AttributeText(a, sortBy));
    }
  }

  /** `waterbodies.sort(...)`: the array's new contents are its old
      contents sorted by the attribute. */
  method SortInPlace(a: array<Graphic>, sortBy: string, le: (string, string) -> bool)
    modifies a
    ensures a[..] == SortBy(old(a[..]), ByAttribute(sortBy, le))
  {
    var sorted := SortBy(a[..], ByAttribute(sortBy, le));
    forall i | 0 <= i < a.Length {
      a[i] := sorted[i];
    }
  }

  /** Under a total `localeCompare` order the sorted list is ordered by the
      attribute and holds the same waterbodies. */
  lemma SortedByAttribute(ws: seq<Graphic>, sortBy: string, le: (string, string) -> bool)
    requires Total(le)
    ensures var r := SortBy(ws, ByAttribute(sortBy, le));
      && (forall i | 0 <= i < |r| - 1 :: le(AttributeText(r[i], sortBy), AttributeText(r[i + 1], sortBy)))
      && multiset(r) == multiset(ws)
  {
    ByAttributeTotal(sortBy, le);
    SortByCorrect(ws, ByAttribute(sortBy, le));
    var r := SortBy(ws, ByAttribute(sortBy, le));
    assert forall i | 0 <= i < |r| - 1 :: ByAttribute(sortBy, le)(r[i], r[i + 1]);
  }

  // ---------------------------------------------------------------------
  // Rows

  /** `expandedRows.filter((item) => item !== index)` */
  function Without(rows: seq<int>, index: int): (r: seq<int>)
    ensures forall j :: j in r <==> j in rows && j != index
  {
    if |rows| == 0 then []
    else (if rows[0] == index then [] else [rows[0]]) + Without(rows[1..], index)
  }

  /** A row's `onChange`: an expanded row is collapsed, a collapsed one
      expanded by appending its index; no other row changes. */
  function ToggleRow(rows: seq<int>, index: int): (r: seq<int>)
    ensures index in r <==> index !in rows
    ensures forall j | j != index :: j in r <==> j in rows
    ensures index !in rows ==> r == rows + [index]
  {
    if index in rows then Without(rows, index) else rows + [index]
  }

  /** Toggling the same row twice restores which rows are expanded. */
  lemma ToggleRowTwice(rows: seq<int>, index: int, j: int)
    ensures j in ToggleRow(ToggleRow(rows, index), index) <==> j in rows
  {
  }

  /** The highlight status of a row. */
  datatype RowStatus = Selected | Highlighted

  /** A graphic is present, has attributes, and its id equals `id`. */
  predicate HasId(g: Option<Graphic>, id: string) {
    g.Some? && g.value.attributes.Some? && Attribute(g.value, "assessmentunitidentifier") == Some(id)
  }

  /** The `status` a row is rendered with: only a row with a non-empty id
      has one; `selected` when the selected graphic has that id,
      otherwise `highlighted` when the highlighted graphic has it. */
  method WaterbodyStatus(graphic: Option<Graphic>, selectedGraphic: Option<Graphic>,
                         highlightedGraphic: Option<Graphic>) returns (status: Option<RowStatus>)
    ensures status == Some(Selected) <==>
      exists id :: id != "" && HasId(graphic, id) && HasId(selectedGraphic, id)
    ensures status == Some(Highlighted) <==>
      exists id :: id != "" && HasId(graphic, id) && !HasId(selectedGraphic, id) && HasId(highlightedGraphic, id)
    ensures graphic.None? || Attribute(graphic.value, "assessmentunitidentifier").GetOr("") == "" ==> status == None
  {
    status := None;
    if graphic.Some? && graphic.value.attributes.Some? && Attribute(graphic.value, "assessmentunitidentifier").GetOr("") != "" {
      var id := Attribute(graphic.value, "assessmentunitidentifier").value;
      var isSelected := if selectedGraphic.Some? && selectedGraphic.value.attributes.Some?
        then Attribute(selectedGraphic.value, "assessmentunitidentifier") == Some(id) else false;
      var isHighlighted := if highlightedGraphic.Some? && highlightedGraphic.value.attributes.Some?
        then Attribute(highlightedGraphic.value, "assessmentunitidentifier") == Some(id) else false;
      if isSelected {
        status := Some(Selected);
      } else if isHighlighted && !isSelected {
        status := Some(Highlighted);
      }
      assert HasId(graphic, id);
    }
  }

  /** The row key: the symbol type, then the organization id, then the
      assessment unit id, missing ones reading `"undefined"`; a graphic
      without attributes throws. */
  function ItemKey(symbolType: string, g: Graphic): Result<string> {
    if g.attributes.None? then Err(TypeError)
    else Ok(symbolType + AttributeText(g, "organizationid") + AttributeText(g, "assessmentunitidentifier"))
  }

  /** Within one symbol type and organization the key tells assessment
      units apart. */
  lemma ItemKeySeparatesUnits(symbolType: string, a: Graphic, b: Graphic)
    requires a.attributes.Some? && b.attributes.Some?
    requires AttributeText(a, "organizationid") == AttributeText(b, "organizationid")
    ensures ItemKey(symbolType, a) == ItemKey(symbolType, b) <==>
      AttributeText(a, "assessmentunitidentifier") == AttributeText(b, "assessmentunitidentifier")
  {
    var p := symbolType + AttributeText(a, "organizationid");
    var ka, kb := ItemKey(symbolType, a).value, ItemKey(symbolType, b).value;
    if ka == kb {
      assert ka[|p|..] == AttributeText(a, "assessmentunitidentifier");
      assert kb[|p|..] == AttributeText(b, "assessmentunitidentifier");
    }
  }

  // ---------------------------------------------------------------------
  // The component

  /** What the component renders. */
  datatype View = Spinner | NoWaterbodies | Rows

  /** The list's state: the loading flag, the sort attribute and the
      expanded rows. */
  class ListState {
    var loading: bool
    var sortBy: string
    var expandedRows: seq<int>

    constructor ()
      ensures loading && sortBy == "assessmentunitname" && expandedRows == []
    {
      loading := true;
      sortBy := "assessmentunitname";
      expandedRows := [];
    }

    /** The effect on a new `waterbodies` prop: without one the spinner is
        shown; with one a 250 ms timer is started that ends loading. */
    method WaterbodiesChanged(present: bool) returns (timerMs: Option<nat>)
      modifies this
      ensures !present ==> loading && timerMs == None
      ensures present ==> loading == old(loading) && timerMs == Some(250)
      ensures sortBy == old(sortBy) && expandedRows == old(expandedRows)
    {
      timerMs := None;
      if !present {
        loading := true;
      } else {
        timerMs := Some(250);
      }
    }

    /** The timer fired. */
    method TimerFired()
      modifies this
      ensures !loading
      ensures sortBy == old(sortBy) && expandedRows == old(expandedRows)
    {
      loading := false;
    }

    /** A new sort option was chosen. */
    method SortChanged(value: string)
      modifies this
      ensures sortBy == value
      ensures loading == old(loading) && expandedRows == old(expandedRows)
    {
      sortBy := value;
    }

    /** A row's accordion item changed. */
    method RowChanged(index: int)
      modifies this
      ensures expandedRows == ToggleRow(old(expandedRows), index)
      ensures loading == old(loading) && sortBy == old(sortBy)
    {
      if index in expandedRows {
        expandedRows := Without(expandedRows, index);
      } else {
        expandedRows := expandedRows + [index];
      }
    }

    /** A render: the spinner while loading or without waterbodies, the
        message for an empty list, otherwise the rows, after sorting the
        list in place. Two or more waterbodies of which one lacks the sort
        attribute make the comparator throw. */
    method Render(waterbodies: array?<Graphic>, le: (string, string) -> bool) returns (r: Result<View>)
      modifies waterbodies
      ensures loading || waterbodies == null ==> r == Ok(Spinner) && (waterbodies != null ==> unchanged(waterbodies))
      ensures !loading && waterbodies != null && waterbodies.Length == 0 ==> r == Ok(NoWaterbodies)
      ensures !loading && waterbodies != null && waterbodies.Length >= 2 && !Sortable(old(waterbodies[..]), sortBy) ==>
        r == Err(TypeError) && unchanged(waterbodies)
      ensures (!loading && waterbodies != null && waterbodies.Length > 0
        && (waterbodies.Length == 1 || Sortable(old(waterbodies[..]), sortBy))) ==>
        r == Ok(Rows) && waterbodies[..] == SortBy(old(waterbodies[..]), ByAttribute(sortBy, le))
    {
      if loading || waterbodies == null {
        return Ok(Spinner);
      }
      if waterbodies.Length <= 0 {
        return Ok(NoWaterbodies);
      }
      if waterbodies.Length >= 2 && !Sortable(waterbodies[..], sortBy) {
        return Err(TypeError);
      }
      SortInPlace(waterbodies, sortBy, le);
      return Ok(Rows);
    }
  }
}
