/** The query-string parts the monitoring-station page builds for a
    download (`buildDateFilter`, `buildCharcsFilter`) and the counts it
    shows next to the checkboxes (`getTotalCount`, `getFilteredCount`). */
module StationFilters {
  import opened Wrappers
  import opened JsObjects
  import opened JsStrings
  import opened StationCheckboxes

  // ---------------------------------------------------------------------
  // `buildDateFilter`

  const StartDateLo: string := "&startDateLo=01-01-"
  const StartDateHi: string := "&startDateHi=12-31-"

  /** The part of the filter for the lower bound. */
  function LowerPart(lo: nat, minYear: nat): string {
    if lo != minYear then StartDateLo + Decimal(lo) else ""
  }

  /** The part of the filter for the upper bound. */
  function UpperPart(hi: nat, maxYear: nat): string {
    if hi != maxYear then StartDateHi + Decimal(hi) else ""
  }

  /** `buildDateFilter`: nothing without a range; otherwise a start-date
      parameter for each bound that is not the matching end of the
      station's years. */
  function BuildDateFilter(range: Option<(nat, nat)>, minYear: nat, maxYear: nat): (r: Option<string>)
    ensures r.None? <==> range.None?
    ensures r.Some? ==> (r.value == "" <==> range.value == (minYear, maxYear))
  {
    if range.None? then None
    else Some(LowerPart(range.value.0, minYear) + UpperPart(range.value.1, maxYear))
  }

  predicate StartsWith(s: string, prefix: string) {
    |prefix| <= |s| && s[..|prefix|] == prefix
  }

  /** The number a parameter carries: the run of digits after its name. */
  function NumberAfter(f: string, prefix: string): (nat, string)
    requires StartsWith(f, prefix)
  {
    var tail := f[|prefix|..];
    DigitRunIsDigits(tail);
    (ParseDecimal(tail[..DigitRun(tail)]), tail[DigitRun(tail)..])
  }

  /** The lower bound a filter asks for and the rest of the filter; a
      missing parameter stands for the first of the station's years. */
  function ReadLower(f: string, minYear: nat): (nat, string) {
    if StartsWith(f, StartDateLo) then NumberAfter(f, StartDateLo) else (minYear, f)
  }

  /** The upper bound a filter asks for; a missing parameter stands for the
      last of the station's years. */
  function ReadUpper(f: string, maxYear: nat): nat {
    if StartsWith(f, StartDateHi) then NumberAfter(f, StartDateHi).0 else maxYear
  }

  /** The bounds a date filter asks for, read back. */
  function ReadDateFilter(f: string, minYear: nat, maxYear: nat): (nat, nat) {
    var (lo, rest) := ReadLower(f, minYear);
    (lo, ReadUpper(rest, maxYear))
  }

  /** A parameter followed by text that does not start with a digit reads
      back as its number and that text. */
  lemma NumberAfterOf(prefix: string, n: nat, u: string)
    requires u == [] || !IsDigit(u[0])
    ensures StartsWith(prefix + Decimal(n) + u, prefix)
    ensures NumberAfter(prefix + Decimal(n) + u, prefix) == (n, u)
  {
    var f := prefix + Decimal(n) + u;
    assert f[..|prefix|] == prefix;
    var tail := f[|prefix|..];
    assert tail == Decimal(n) + u;
    DigitRunOf(Decimal(n), u);
    assert tail[..|Decimal(n)|] == Decimal(n);
    assert tail[|Decimal(n)|..] == u;
    ParseDecimalOf(n);
  }

  lemma ReadUpperOf(hi: nat, maxYear: nat)
    ensures ReadUpper(UpperPart(hi, maxYear), maxYear) == hi
  {
    if hi != maxYear {
      NumberAfterOf(StartDateHi, hi, "");
      assert StartDateHi + Decimal(hi) + "" == UpperPart(hi, maxYear);
    }
  }

  lemma ReadLowerOf(lo: nat, minYear: nat, u: string)
    requires u == [] || StartsWith(u, StartDateHi)
    ensures ReadLower(LowerPart(lo, minYear) + u, minYear) == (lo, u)
  {
    if lo != minYear {
      NumberAfterOf(StartDateLo, lo, u);
      assert StartDateLo + Decimal(lo) + u == LowerPart(lo, minYear) + u;
    } else {
      assert LowerPart(lo, minYear) + u == u;
      if u != [] {
        assert u[10] == StartDateHi[10] == 'H';
      }
    }
  }

  /** The date filter of a range reads back as that range: distinct ranges
      ask for distinct dates. */
  lemma DateFilterRoundTrip(lo: nat, hi: nat, minYear: nat, maxYear: nat)
    ensures ReadDateFilter(BuildDateFilter(Some((lo, hi)), minYear, maxYear).value, minYear, maxYear) == (lo, hi)
  {
    var upper := UpperPart(hi, maxYear);
    if hi != maxYear {
      assert upper[..|StartDateHi|] == StartDateHi;
    }
    ReadLowerOf(lo, minYear, upper);
    ReadUpperOf(hi, maxYear);
  }

  // ---------------------------------------------------------------------
  // `buildCharcsFilter`

  /** One parameter of the characteristics filter. */
  datatype Param = TypeParam(id: string) | NameParam(id: string)

  function Text(p: Param): string {
    match p
    case TypeParam(id) => "&characteristicType=" + id
    case NameParam(id) => "&characteristicName=" + id
  }

  function Render(ps: seq<Param>): string
    decreases |ps|
  {
    if |ps| == 0 then "" else Render(ps[..|ps| - 1]) + Text(ps[|ps| - 1])
  }

  lemma RenderSnoc(ps: seq<Param>, p: Param)
    ensures Render(ps + [p]) == Render(ps) + Text(p)
  {
    assert (ps + [p])[..|ps|] == ps;
  }

  /** The checked characteristics among `ids`, by name. */
  function CheckedNames(charcs: Dict, ids: seq<string>): seq<Param>
    requires Covers(charcs, ids)
    decreases |ids|
  {
    if |ids| == 0 then []
    else
      var c := charcs.at[ids[|ids| - 1]];
      CheckedNames(charcs, ids[..|ids| - 1]) + (if c.selected == 1 then [NameParam(c.id)] else [])
  }

  /** Every type lists characteristics that are present. */
  ghost predicate MembersPresent(s: Checkboxes) {
    forall t | t in s.types.at :: Covers(s.charcs, s.types.at[t].members)
  }

  /** A checked type is asked for by type; of an indeterminate type, the
      checked characteristics are asked for by name. */
  function TypeParams(s: Checkboxes, t: Entity): seq<Param>
    requires Covers(s.charcs, t.members)
  {
    if t.selected == 1 then [TypeParam(t.id)]
    else if t.selected == 2 then CheckedNames(s.charcs, t.members)
    else []
  }

  function ParamsOf(s: Checkboxes, keys: seq<string>): seq<Param>
    requires forall k | k in keys :: k in s.types.at && Covers(s.charcs, s.types.at[k].members)
    decreases |keys|
  {
    if |keys| == 0 then []
    else ParamsOf(s, keys[..|keys| - 1]) + TypeParams(s, s.types.at[keys[|keys| - 1]])
  }

  /** The parameters of the characteristics filter: none when the `all`
      box is unchecked or checked, the types' parameters in key order
      otherwise. */
  function CharcsParams(s: Checkboxes): seq<Param>
    requires s.types.Valid() && MembersPresent(s)
  {
    if s.all == 1 || s.all == 0 then [] else ParamsOf(s, s.types.keys)
  }

  /** One more member adds its name exactly when it is checked. */
  lemma CheckedNamesSnoc(charcs: Dict, members: seq<string>, j: nat)
    requires Covers(charcs, members) && j < |members|
    ensures Covers(charcs, members[..j]) && Covers(charcs, members[..j + 1])
    ensures CheckedNames(charcs, members[..j + 1]) == CheckedNames(charcs, members[..j]) +
      (if charcs.at[members[j]].selected == 1 then [NameParam(charcs.at[members[j]].id)] else [])
  {
    assert members[..j + 1][..j] == members[..j];
  }

  /** One more member appends its name parameter's text exactly when it is
      checked. */
  lemma RenderCheckedSnoc(charcs: Dict, members: seq<string>, j: nat, ps: seq<Param>)
    requires Covers(charcs, members) && j < |members|
    ensures Covers(charcs, members[..j]) && Covers(charcs, members[..j + 1])
    ensures Render(ps + CheckedNames(charcs, members[..j + 1])) == Render(ps + CheckedNames(charcs, members[..j])) +
      (if charcs.at[members[j]].selected == 1 then "&characteristicName=" + charcs.at[members[j]].id else "")
  {
    CheckedNamesSnoc(charcs, members, j);
    var c := charcs.at[members[j]];
    var before := ps + CheckedNames(charcs, members[..j]);
    if c.selected == 1 {
      assert ps + CheckedNames(charcs, members[..j + 1]) == before + [NameParam(c.id)];
      RenderSnoc(before, NameParam(c.id));
    } else {
      assert CheckedNames(charcs, members[..j + 1]) == CheckedNames(charcs, members[..j]);
    }
  }

  /** The inner `forEach` of `buildCharcsFilter`: a name parameter for each
      checked characteristic of an indeterminate type. */
  method AppendCheckedNames(filter0: string, charcs: Dict, members: seq<string>, ghost ps: seq<Param>)
    returns (filter: string)
    requires Covers(charcs, members) && filter0 == Render(ps)
    ensures filter == Render(ps + CheckedNames(charcs, members))
  {
    filter := filter0;
    var j := 0;
    assert ps + CheckedNames(charcs, members[..0]) == ps;
    while j < |members|
      invariant 0 <= j <= |members|
      invariant filter == Render(ps + CheckedNames(charcs, members[..j]))
    {
      var charc := charcs.at[members[j]];
      RenderCheckedSnoc(charcs, members, j, ps);
      if charc.selected == 1 {
        filter := filter + ("&characteristicName=" + charc.id);
      }
      j := j + 1;
    }
    assert members[..j] == members;
  }

  /** The outer `forEach` of `buildCharcsFilter`: the parameters of one
      type. */
  method AppendTypeParams(filter0: string, s: Checkboxes, t: Entity, ghost ps: seq<Param>)
    returns (filter: string)
    requires Covers(s.charcs, t.members) && filter0 == Render(ps)
    ensures filter == Render(ps + TypeParams(s, t))
  {
    filter := filter0;
    if t.selected == 1 {
      RenderSnoc(ps, TypeParam(t.id));
      filter := filter + "&characteristicType=" + t.id;
    } else if t.selected == 2 {
      filter := AppendCheckedNames(filter, s.charcs, t.members, ps);
    } else {
      assert ps + TypeParams(s, t) == ps;
    }
  }

  /** `buildCharcsFilter`. */
  method BuildCharcsFilter(s: Checkboxes) returns (filter: string)
    requires s.types.Valid() && MembersPresent(s)
    ensures filter == Render(CharcsParams(s))
    ensures s.all == 0 || s.all == 1 ==> filter == ""
  {
    filter := "";
    if s.all == 1 || s.all == 0 {
      return;
    }
    var keys := s.types.keys;
    var i := 0;
    while i < |keys|
      invariant 0 <= i <= |keys|
      invariant filter == Render(ParamsOf(s, keys[..i]))
    {
      assert keys[..i + 1][..i] == keys[..i];
      filter := AppendTypeParams(filter, s, s.types.at[keys[i]], ParamsOf(s, keys[..i]));
      i := i + 1;
    }
    assert keys[..i] == keys;
  }

  // ---------------------------------------------------------------------
  // What the filter asks for

  /** Whether the download made with parameters `ps` includes the
      characteristic `c`: everything when there are no parameters,
      otherwise what is asked for by name or by type. */
  ghost predicate Downloaded(s: Checkboxes, ps: seq<Param>, c: string)
    requires c in s.charcs.at
  {
    ps == [] || NameParam(s.charcs.at[c].id) in ps || TypeParam(s.charcs.at[c].typeId) in ps
  }

  lemma {:induction false} CheckedNamesMembers(charcs: Dict, ids: seq<string>, x: string)
    requires Covers(charcs, ids)
    ensures NameParam(x) in CheckedNames(charcs, ids) <==>
      exists c | c in ids :: charcs.at[c].selected == 1 && charcs.at[c].id == x
    ensures forall y :: TypeParam(y) !in CheckedNames(charcs, ids)
    decreases |ids|
  {
    if |ids| > 0 {
      var init := ids[..|ids| - 1];
      assert forall c | c in init :: c in ids;
      CheckedNamesMembers(charcs, init, x);
      var last := ids[|ids| - 1];
      assert forall c | c in ids :: c in init || c == last;
    }
  }

  lemma {:induction false} ParamsOfMembers(s: Checkboxes, keys: seq<string>, x: string)
    requires forall k | k in keys :: k in s.types.at && Covers(s.charcs, s.types.at[k].members)
    ensures TypeParam(x) in ParamsOf(s, keys) <==>
      exists k | k in keys :: s.types.at[k].selected == 1 && s.types.at[k].id == x
    ensures NameParam(x) in ParamsOf(s, keys) <==>
      exists k | k in keys :: s.types.at[k].selected == 2 && NameParam(x) in CheckedNames(s.charcs, s.types.at[k].members)
    decreases |keys|
  {
    if |keys| > 0 {
      var init := keys[..|keys| - 1];
      var last := keys[|keys| - 1];
      assert forall k | k in init :: k in keys;
      assert forall k | k in keys :: k in init || k == last;
      ParamsOfMembers(s, init, x);
      CheckedNamesMembers(s.charcs, s.types.at[last].members, x);
    }
  }

  /** In a well-formed, consistent state whose `all` box is indeterminate,
      the parameters ask for exactly the checked characteristics (either
      rule: they agree on types). */
  lemma ParamsAskForChecked(rule: Rule, s: Checkboxes, c: string)
    requires Wf(s) && TypesConsistent(rule, s) && s.all == 2 && c in s.charcs.at
    ensures MembersPresent(s)
    ensures NameParam(c) in CharcsParams(s) || TypeParam(s.charcs.at[c].typeId) in CharcsParams(s)
        <==> s.charcs.at[c].selected == 1
  {
    StructuredMembersPresent(s);
    var e := s.charcs.at[c];
    assert CharcOk(s, c);
    var t := e.typeId;
    var te := s.types.at[t];
    assert TypeOk(s, t);
    var xs := States(s.charcs, te.members);
    assert c in te.members;
    forall i | 0 <= i < |xs| ensures xs[i] == 0 || xs[i] == 1 {
      assert te.members[i] in te.members;
    }
    RulesAgreeOnBinary(xs);
    assert te.selected == Aggregate(SumOfStates, xs);
    SumBinary(xs);
    StatesAllEq(s.charcs, te.members, 0);
    StatesAllEq(s.charcs, te.members, 1);
    ParamsOfMembers(s, s.types.keys, c);
    ParamsOfMembers(s, s.types.keys, t);
    // Only this type is asked for as `t`, and only this type lists `c`.
    forall k | k in s.types.keys && s.types.at[k].selected == 1 && s.types.at[k].id == t
      ensures k == t
    {
    }
    forall k | k in s.types.keys && s.types.at[k].selected == 2 && NameParam(c) in CheckedNames(s.charcs, s.types.at[k].members)
      ensures k == t && e.selected == 1
    {
      assert TypeOk(s, k);
      CheckedNamesMembers(s.charcs, s.types.at[k].members, c);
      var c' :| c' in s.types.at[k].members && s.charcs.at[c'].selected == 1 && s.charcs.at[c'].id == c;
    }
    assert t in s.types.keys;
    if te.selected == 2 && e.selected == 1 {
      CheckedNamesMembers(s.charcs, te.members, c);
    }
  }

  /** With the intended rule, and a state whose `all` box is not
      unchecked, the download includes exactly the checked
      characteristics. */
  lemma DownloadIsSelection(s: Checkboxes, c: string)
    requires Wf(s) && Consistent(ChildStates, s) && |s.groups.keys| > 0 && s.all != 0
    requires c in s.charcs.at
    ensures MembersPresent(s)
    ensures Downloaded(s, CharcsParams(s), c) <==> s.charcs.at[c].selected == 1
  {
    ParamsAskForChecked(ChildStates, s.(all := 2), c);
    AllMeansEveryCharacteristic(s);
    if s.all == 2 {
      assert CharcsParams(s) == CharcsParams(s.(all := 2));
      var d :| d in s.charcs.at && s.charcs.at[d].selected != 0;
      assert s.charcs.at[d].selected == 1;
      ParamsAskForChecked(ChildStates, s.(all := 2), d);
      assert CharcsParams(s) != [];
    }
  }

  lemma StructuredMembersPresent(s: Checkboxes)
    requires Structured(s)
    ensures s.types.Valid() && MembersPresent(s)
  {
    forall t | t in s.types.at ensures Covers(s.charcs, s.types.at[t].members) {
      assert TypeOk(s, t);
    }
  }

  /** As written, the same two clicks of the example leave an empty filter,
      which downloads the unchecked characteristic c2. */
  lemma AsWrittenDownloadsUnchecked() returns (s1: Checkboxes, s2: Checkboxes)
    ensures Toggle(SumOfStates, Example(), CharacteristicLevel, "c2") == Ok(s1)
    ensures Toggle(SumOfStates, s1, CharacteristicLevel, "c3") == Ok(s2)
    ensures "c2" in s2.charcs.at && s2.charcs.at["c2"].selected == 0
    ensures s2.types.Valid() && MembersPresent(s2)
    ensures CharcsParams(s2) == [] && Downloaded(s2, CharcsParams(s2), "c2")
  {
    ExampleWf();
    s1 := ExampleUntickC2(SumOfStates);
    ToggleCharacteristicKeeps(SumOfStates, Example(), "c2");
    s2 := ExampleUntickC3(SumOfStates, s1);
    ToggleCharacteristicKeeps(SumOfStates, s1, "c3");
    AsWrittenAllCheckedAfterUnticking();
    StructuredMembersPresent(s2);
  }

  // ---------------------------------------------------------------------
  // Counts

  /** The sum of the counts of the checked entries among `ks`. */
  function CheckedCount(o: Dict, ks: seq<string>): int
    requires Covers(o, ks)
    decreases |ks|
  {
    if |ks| == 0 then 0
    else
      var e := o.at[ks[|ks| - 1]];
      CheckedCount(o, ks[..|ks| - 1]) + (if e.selected != 0 then e.count else 0)
  }

  /** `getTotalCount`: the counts of the checked characteristics added up. */
  method GetTotalCount(charcs: Dict) returns (totalCount: int)
    requires charcs.Valid()
    ensures totalCount == CheckedCount(charcs, charcs.keys)
  {
    totalCount := 0;
    var i := 0;
    while i < |charcs.keys|
      invariant 0 <= i <= |charcs.keys|
      invariant totalCount == CheckedCount(charcs, charcs.keys[..i])
    {
      assert charcs.keys[..i + 1][..i] == charcs.keys[..i];
      var charc := charcs.at[charcs.keys[i]];
      if charc.selected != 0 {
        totalCount := totalCount + charc.count;
      }
      i := i + 1;
    }
    assert charcs.keys[..i] == charcs.keys;
  }

  /** The sum of all the counts among `ks`. */
  function CountSum(o: Dict, ks: seq<string>): int
    requires Covers(o, ks)
    decreases |ks|
  {
    if |ks| == 0 then 0 else CountSum(o, ks[..|ks| - 1]) + o.at[ks[|ks| - 1]].count
  }

  /** After `toggleAll` the total is every count or none. */
  lemma {:induction false} CheckedCountSetAll(o: Dict, ks: seq<string>, v: int)
    requires Covers(o, ks)
    ensures Covers(SetAll(o, v), ks)
    ensures CheckedCount(SetAll(o, v), ks) == if v == 0 then 0 else CountSum(o, ks)
    decreases |ks|
  {
    if |ks| > 0 {
      assert forall k | k in ks[..|ks| - 1] :: k in ks;
      CheckedCountSetAll(o, ks[..|ks| - 1], v);
    }
  }

  /** Unticking a checked characteristic takes its count off the total;
      ticking an unchecked one adds it. */
  lemma {:induction false} CheckedCountToggle(o: Dict, ks: seq<string>, id: string, v: int)
    requires Covers(o, ks) && id in o.at && Distinct(ks)
    ensures Covers(SetSelected(o, id, v), ks)
    ensures CheckedCount(SetSelected(o, id, v), ks) ==
      CheckedCount(o, ks) + if id in ks then
        (if v != 0 then o.at[id].count else 0) - (if o.at[id].selected != 0 then o.at[id].count else 0)
      else 0
    decreases |ks|
  {
    if |ks| > 0 {
      var init := ks[..|ks| - 1];
      assert forall k | k in init :: k in ks;
      assert Distinct(init);
      CheckedCountToggle(o, init, id, v);
      assert ks[|ks| - 1] !in init;
      assert id in ks <==> id in init || id == ks[|ks| - 1];
    }
  }

  /** A sampled result of a characteristic. */
  datatype Record = Record(year: int)

  /** The records whose year lies in `[lo, hi]`. */
  function CountInRange(records: seq<Record>, lo: int, hi: int): (n: nat)
    ensures n <= |records|
    decreases |records|
  {
    if |records| == 0 then 0
    else
      CountInRange(records[..|records| - 1], lo, hi)
      + (if lo <= records[|records| - 1].year <= hi then 1 else 0)
  }

  /** `getFilteredCount`: with a range, the records of that range; without
      one, the given count. */
  method GetFilteredCount(range: Option<(int, int)>, records: seq<Record>, count: int) returns (r: int)
    ensures range.None? ==> r == count
    ensures range.Some? ==> r == CountInRange(records, range.value.0, range.value.1)
  {
    if range.Some? {
      var filteredCount := 0;
      var i := 0;
      while i < |records|
        invariant 0 <= i <= |records|
        invariant filteredCount == CountInRange(records[..i], range.value.0, range.value.1)
      {
        assert records[..i + 1][..i] == records[..i];
        if records[i].year >= range.value.0 && records[i].year <= range.value.1 {
          filteredCount := filteredCount + 1;
        }
        i := i + 1;
      }
      assert records[..i] == records;
      return filteredCount;
    }
    return count;
  }

  /** A wider range never counts fewer records, and a range holding every
      year counts them all. */
  lemma {:induction false} CountInRangeMonotone(records: seq<Record>, lo: int, hi: int, lo': int, hi': int)
    requires lo' <= lo && hi <= hi'
    ensures CountInRange(records, lo, hi) <= CountInRange(records, lo', hi')
    ensures (forall i | 0 <= i < |records| :: lo <= records[i].year <= hi) ==> CountInRange(records, lo, hi) == |records|
    decreases |records|
  {
    if |records| > 0 {
      CountInRangeMonotone(records[..|records| - 1], lo, hi, lo', hi');
    }
  }
}
