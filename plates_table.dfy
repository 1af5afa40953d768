// The plates table page (src/components/app/plates-table.tsx): how a plate
// and a status badge are shown, and how the filter controls rewrite the
// page's query string before navigating.

module PlatesTable {
  import opened Common

  // ---------------------------------------------------------------------
  // Cells

  /** What `formatPlate` renders: 'N/A', two spans, or one. */
  datatype PlateView = NotAvailable | SplitPlate(first: string, rest: string) | WholePlate(plate: string)

  /** `formatPlate(plate)`: a seven-character plate is shown as its first
      four and last three characters; null or empty is 'N/A'. */
  function FormatPlate(plate: Option<string>): (r: PlateView)
    ensures r.NotAvailable? <==> plate.None? || plate.value == ""
    ensures r.SplitPlate? <==> plate.Some? && |plate.value| == 7
    ensures r.SplitPlate? ==> |r.first| == 4 && |r.rest| == 3 && r.first + r.rest == plate.value
    ensures r.WholePlate? ==> r.plate == plate.value
  {
    if plate.None? || plate.value == "" then NotAvailable
    else if |plate.value| == 7 then
      assert plate.value[..4] + plate.value[4..] == plate.value;
      SplitPlate(plate.value[..4], plate.value[4..])
    else WholePlate(plate.value)
  }

  /** The badge styles. */
  datatype Badge = Success | Destructive | Secondary

  /** `getStatusClass(status)`. */
  function StatusBadge(status: Option<string>): (r: Badge)
  {
    if status.None? || status.value == "" then Secondary
    else
      var lowerStatus := ToLower(status.value);
      if lowerStatus == "valid" || lowerStatus == "taxed" then Success
      else if Contains(lowerStatus, "expire") || Contains(lowerStatus, "due") || Contains(lowerStatus, "not taxed")
      then Destructive
      else Secondary
  }

  /** The badge is green exactly for 'valid' and 'taxed' in any letter
      case, red for a status mentioning an expiry, a due date or 'not
      taxed', and grey otherwise, including for no status. */
  lemma {:induction false} StatusBadgeRules(status: Option<string>)
    ensures StatusBadge(status) == Success
            <==> status.Some? && (ToLower(status.value) == "valid" || ToLower(status.value) == "taxed")
    ensures StatusBadge(status) == Destructive
            <==> status.Some? && ToLower(status.value) != "valid" && ToLower(status.value) != "taxed"
                 && (Contains(ToLower(status.value), "expire") || Contains(ToLower(status.value), "due")
                     || Contains(ToLower(status.value), "not taxed"))
    ensures status.None? || status == Some("") ==> StatusBadge(status) == Secondary
  {
    if status.Some? && status.value != "" {
      assert ToLower(status.value) != "valid" && ToLower(status.value) != "taxed" ==> ToLower(status.value) != [];
    } else if status.Some? {
      assert ToLower(status.value) == [];
      assert !StartsWith([], "expire") && !StartsWith([], "due") && !StartsWith([], "not taxed");
    }
  }

  lemma {:induction false} LowerOfUpper(s: string)
    ensures ToLower(ToUpper(s)) == ToLower(s)
  {
    assert forall i :: 0 <= i < |s| ==> LowerChar(UpperChar(s[i])) == LowerChar(s[i]);
  }

  /** Shouting the status does not change its badge. */
  lemma {:induction false} StatusBadgeIgnoresCase(s: string)
    ensures StatusBadge(Some(ToUpper(s))) == StatusBadge(Some(s))
  {
    LowerOfUpper(s);
  }

  // ---------------------------------------------------------------------
  // The query string, as URLSearchParams keeps it: name-value pairs in
  // order, a name possibly repeated.

  type Entries = seq<(string, string)>

  /** `params.get(name)`: the first value under `name`. */
  function Lookup(es: Entries, name: string): Option<string>
  {
    if es == [] then None
    else if es[0].0 == name then Some(es[0].1)
    else Lookup(es[1..], name)
  }

  /** `params.delete(name)`: every pair under `name` removed. */
  function Without(es: Entries, name: string): (r: Entries)
    ensures |r| <= |es|
  {
    if es == [] then []
    else if es[0].0 == name then Without(es[1..], name)
    else [es[0]] + Without(es[1..], name)
  }

  /** `params.set(name, value)`: the first pair under `name` takes the
      value and the others are removed, or the pair is appended. */
  function Set(es: Entries, name: string, value: string): Entries
  {
    if es == [] then [(name, value)]
    else if es[0].0 == name then [(name, value)] + Without(es[1..], name)
    else [es[0]] + Set(es[1..], name, value)
  }

  /** After a delete nothing is found under the name, and every other
      name reads as before. */
  lemma {:induction false} LookupWithout(es: Entries, name: string, other: string)
    ensures Lookup(Without(es, name), other) == if other == name then None else Lookup(es, other)
  {
    if es != [] {
      LookupWithout(es[1..], name, other);
    }
  }

  /** After a set the name reads as the new value, and every other name
      reads as before. */
  lemma {:induction false} LookupSet(es: Entries, name: string, value: string, other: string)
    ensures Lookup(Set(es, name, value), other) == if other == name then Some(value) else Lookup(es, other)
  {
    if es != [] {
      if es[0].0 == name {
        LookupWithout(es[1..], name, other);
      } else {
        LookupSet(es[1..], name, value, other);
      }
    }
  }

  /** Pairs under `name`. */
  function Occurrences(es: Entries, name: string): nat
  {
    if es == [] then 0
    else (if es[0].0 == name then 1 else 0) + Occurrences(es[1..], name)
  }

  lemma {:induction false} WithoutRemovesAll(es: Entries, name: string)
    ensures Occurrences(Without(es, name), name) == 0
  {
    if es != [] {
      WithoutRemovesAll(es[1..], name);
    }
  }

  /** A set leaves exactly one pair under the name. */
  lemma {:induction false} SetLeavesOne(es: Entries, name: string, value: string)
    ensures Occurrences(Set(es, name, value), name) == 1
  {
    if es != [] {
      if es[0].0 == name {
        WithoutRemovesAll(es[1..], name);
      } else {
        SetLeavesOne(es[1..], name, value);
      }
    }
  }

  /** A mutable `URLSearchParams`. */
  class SearchParams {
    var entries: Entries

    /** `new URLSearchParams(Array.from(searchParams.entries()))`. */
    constructor (es: Entries)
      ensures entries == es
    {
      entries := es;
    }

    method SetParam(name: string, value: string)
      modifies this
      ensures entries == Set(old(entries), name, value)
    {
      entries := Set(entries, name, value);
    }

    method DeleteParam(name: string)
      modifies this
      ensures entries == Without(old(entries), name)
    {
      entries := Without(entries, name);
    }
  }

  // ---------------------------------------------------------------------
  // Filter controls

  /** The text filters' state, in the order `Object.entries` lists it. */
  datatype Filters = Filters(make: string, color: string, year: string)

  function FilterEntries(f: Filters): Entries
  {
    [("make", f.make), ("color", f.color), ("year", f.year)]
  }

  /** One filter: set when non-empty, deleted when empty. */
  function ApplyFilter(es: Entries, filter: (string, string)): Entries
  {
    if filter.1 != "" then Set(es, filter.0, filter.1) else Without(es, filter.0)
  }

  /** The filters applied in order. */
  function ApplyAll(es: Entries, filters: Entries): Entries
  {
    if filters == [] then es
    else ApplyFilter(ApplyAll(es, filters[..|filters| - 1]), filters[|filters| - 1])
  }

  /** `handleApplyFilters`: the query string it navigates to. */
  method HandleApplyFilters(searchParams: Entries, filters: Filters) returns (query: Entries)
    ensures query == Set(ApplyAll(searchParams, FilterEntries(filters)), "page", "1")
  {
    var current := new SearchParams(searchParams);
    var fs := FilterEntries(filters);
    var i := 0;
    while i < |fs|
      invariant 0 <= i <= |fs|
      invariant current.entries == ApplyAll(searchParams, fs[..i])
    {
      var (key, value) := fs[i];
      assert fs[..i + 1][..i] == fs[..i];
      if value != "" {
        current.SetParam(key, value);
      } else {
        current.DeleteParam(key);
      }
      i := i + 1;
    }
    assert fs[..|fs|] == fs;
    current.SetParam("page", "1");
    query := current.entries;
  }

  /** Applying the filters leaves each non-empty filter under its name,
      no value under an empty filter's name, page "1", and every other
      parameter as it was. */
  lemma {:induction false} ApplyFiltersEffect(searchParams: Entries, filters: Filters, name: string)
    ensures var query := Set(ApplyAll(searchParams, FilterEntries(filters)), "page", "1");
      Lookup(query, name)
      == if name == "page" then Some("1")
         else if name == "make" then (if filters.make != "" then Some(filters.make) else None)
         else if name == "color" then (if filters.color != "" then Some(filters.color) else None)
         else if name == "year" then (if filters.year != "" then Some(filters.year) else None)
         else Lookup(searchParams, name)
  {
    var fs := FilterEntries(filters);
    var e1 := ApplyAll(searchParams, fs[..1]);
    var e2 := ApplyAll(searchParams, fs[..2]);
    var e3 := ApplyAll(searchParams, fs);
    assert fs[..1][..0] == [] && fs[..2][..1] == fs[..1] && fs[..3] == fs && fs[..3][..2] == fs[..2];
    assert ApplyAll(searchParams, fs[..1][..0]) == searchParams;
    assert e1 == ApplyFilter(searchParams, ("make", filters.make));
    assert e2 == ApplyFilter(e1, ("color", filters.color));
    assert e3 == ApplyFilter(e2, ("year", filters.year));
    ApplyFilterLookup(searchParams, ("make", filters.make), name);
    ApplyFilterLookup(e1, ("color", filters.color), name);
    ApplyFilterLookup(e2, ("year", filters.year), name);
    LookupSet(e3, "page", "1", name);
  }

  lemma {:induction false} ApplyFilterLookup(es: Entries, filter: (string, string), name: string)
    ensures Lookup(ApplyFilter(es, filter), name)
            == if name != filter.0 then Lookup(es, name)
               else if filter.1 != "" then Some(filter.1) else None
  {
    if filter.1 != "" {
      LookupSet(es, filter.0, filter.1, name);
    } else {
      LookupWithout(es, filter.0, name);
    }
  }

  /** The two select filters. */
  datatype SelectFilter = Mot | Tax

  function SelectName(t: SelectFilter): string
  {
    match t
    case Mot => "mot"
    case Tax => "tax"
  }

  /** `handleSelectFilterChange(type, value)`: the query string it
      navigates to. */
  method HandleSelectFilterChange(searchParams: Entries, filterType: SelectFilter, value: string)
    returns (query: Entries)
    ensures var name := SelectName(filterType);
      query == Set(if value == "all" then Without(searchParams, name) else Set(searchParams, name, value), "page", "1")
  {
    var current := new SearchParams(searchParams);
    if value == "all" {
      current.DeleteParam(SelectName(filterType));
    } else {
      current.SetParam(SelectName(filterType), value);
    }
    current.SetParam("page", "1");
    query := current.entries;
  }

  /** 'all' clears the select's parameter, any other choice sets it, the
      page goes back to "1", and nothing else changes. */
  lemma {:induction false} SelectFilterEffect(searchParams: Entries, filterType: SelectFilter, value: string,
                                              name: string)
    ensures var t := SelectName(filterType);
      var query := Set(if value == "all" then Without(searchParams, t) else Set(searchParams, t, value), "page", "1");
      Lookup(query, name)
      == if name == "page" then Some("1")
         else if name == t then (if value == "all" then None else Some(value))
         else Lookup(searchParams, name)
  {
    var t := SelectName(filterType);
    var mid := if value == "all" then Without(searchParams, t) else Set(searchParams, t, value);
    LookupWithout(searchParams, t, name);
    LookupSet(searchParams, t, value, name);
    LookupSet(mid, "page", "1", name);
  }
}
