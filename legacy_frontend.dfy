// The standalone HTML front end (html/script.js): how a plate and the
// tax and MOT statuses are shown, which table rows the filters leave
// visible, and when polling triggers a reload.

module LegacyFrontend {
  import opened Common

  // ---------------------------------------------------------------------
  // Formatters

  /** `formatLicensePlate(plate)`: a space after the fourth character of a
      plate longer than four; anything else as it came. */
  function FormatLicensePlate(plate: Option<string>): (r: Option<string>)
    ensures plate.Some? && |plate.value| > 4 ==>
              r.Some? && |r.value| == |plate.value| + 1 && r.value[4] == ' '
              && r.value[..4] + r.value[5..] == plate.value
    ensures plate.None? || |plate.value| <= 4 ==> r == plate
  {
    if plate.Some? && |plate.value| > 4 then
      var p := plate.value;
      var spaced := p[..4] + " " + p[4..];
      assert spaced[..4] == p[..4] && spaced[5..] == p[4..];
      Some(spaced)
    else plate
  }

  datatype Color = Green | Red

  /** A coloured `<span>` and its text. */
  datatype StatusSpan = StatusSpan(color: Color, text: string)

  /** `status || 'N/A'` for a nullable string. */
  function OrNA(s: Option<string>): (r: string)
    ensures r != ""
    ensures s.Some? && s.value != "" ==> r == s.value
  {
    if s.Some? && s.value != "" then s.value else "N/A"
  }

  /** The span for a status that is green exactly when it equals `good`. */
  function StatusSpanFor(status: Option<string>, good: string): (r: StatusSpan)
    requires good != ""
    ensures r.color == Green <==> status == Some(good)
    ensures r.text == OrNA(status)
  {
    if status == Some(good) then StatusSpan(Green, status.value) else StatusSpan(Red, OrNA(status))
  }

  /** `formatTaxStatus(status)`. */
  function FormatTaxStatus(status: Option<string>): StatusSpan
  {
    StatusSpanFor(status, "Taxed")
  }

  /** `formatMOTStatus(status)`. */
  function FormatMOTStatus(status: Option<string>): StatusSpan
  {
    StatusSpanFor(status, "Valid")
  }

  /** Tax is green only for exactly 'Taxed' and MOT only for exactly
      'Valid'; everything else is red and shows the status, or 'N/A' when
      there is none. */
  lemma {:induction false} StatusColours(tax: Option<string>, mot: Option<string>)
    ensures FormatTaxStatus(tax).color == Green <==> tax == Some("Taxed")
    ensures FormatMOTStatus(mot).color == Green <==> mot == Some("Valid")
    ensures FormatTaxStatus(tax).color == Red ==> FormatTaxStatus(tax).text == (if tax.Some? && tax.value != "" then tax.value else "N/A")
    ensures FormatMOTStatus(mot).color == Red ==> FormatMOTStatus(mot).text == (if mot.Some? && mot.value != "" then mot.value else "N/A")
    ensures FormatTaxStatus(Some("taxed")).color == Red
  {
  }

  // ---------------------------------------------------------------------
  // The details cell

  /** The vehicle fields of a `/view_data` row shown in the fifth cell. */
  datatype Details = Details(make: Option<string>, color: Option<string>, year: Option<int>,
                             fuelType: Option<string>, tax: Option<string>, mot: Option<string>)

  /** `${row.year_of_manufacture || 'N/A'}`: 0 and null show 'N/A'. */
  function YearShown(year: Option<int>): string
  {
    if year.Some? && year.value != 0 then IntToString(year.value) else "N/A"
  }

  /** The cell's lines, in the order the template writes them. */
  function DetailLines(d: Details): seq<string>
  {
    ["Make: " + OrNA(d.make), "Color: " + OrNA(d.color), "Year: " + YearShown(d.year),
     "Fuel Type: " + OrNA(d.fuelType), "Tax: " + FormatTaxStatus(d.tax).text, "MOT: " + FormatMOTStatus(d.mot).text]
  }

  /** The cell's `innerText`: the `<br>`s become line breaks. */
  function DetailsText(d: Details): string
  {
    Join(DetailLines(d), "\n")
  }

  // ---------------------------------------------------------------------
  // Filtering

  /** The six select values, '' meaning "any". */
  datatype FilterValues = FilterValues(make: string, color: string, year: string,
                                       fuelType: string, tax: string, mot: string)

  /** One filter: empty, or the details cell (the fifth `td`) exists and
      contains "<name>: <value>". */
  predicate FilterMatches(name: string, value: string, cells: seq<string>)
  {
    value == "" || (|cells| > 4 && Contains(cells[4], name + ": " + value))
  }

  /** The visibility `applyFilters` gives a row with these cell texts. */
  predicate RowVisible(f: FilterValues, cells: seq<string>)
  {
    FilterMatches("Make", f.make, cells)
    && FilterMatches("Color", f.color, cells)
    && FilterMatches("Year", f.year, cells)
    && FilterMatches("Fuel Type", f.fuelType, cells)
    && FilterMatches("Tax", f.tax, cells)
    && FilterMatches("MOT", f.mot, cells)
  }

  predicate AllEmpty(f: FilterValues)
  {
    f.make == "" && f.color == "" && f.year == "" && f.fuelType == "" && f.tax == "" && f.mot == ""
  }

  /** With every filter on "any", every row is shown. */
  lemma {:induction false} NoFilterShowsAll(f: FilterValues, cells: seq<string>)
    requires AllEmpty(f)
    ensures RowVisible(f, cells)
  {
  }

  /** A row without a details cell, such as the header row whose cells are
      `th`, is hidden as soon as any filter is set. */
  lemma {:induction false} RowWithoutDetailsHidden(f: FilterValues, cells: seq<string>)
    requires |cells| <= 4
    ensures RowVisible(f, cells) <==> AllEmpty(f)
  {
  }

  /** Text that begins one of the joined parts is found in the whole. */
  lemma {:induction false} JoinContains(parts: seq<string>, sep: string, i: nat, sub: string)
    requires i < |parts| && StartsWith(parts[i], sub)
    ensures Contains(Join(parts, sep), sub)
  {
    if |parts| == 1 {
      ContainsSelf(parts[0], sub);
    } else if i == 0 {
      var whole := parts[0] + sep + Join(parts[1..], sep);
      assert whole[..|sub|] == parts[0][..|sub|];
      ContainsSelf(whole, sub);
    } else {
      assert parts[1..][i - 1] == parts[i];
      JoinContains(parts[1..], sep, i - 1, sub);
      ContainsAppendLeft(parts[0] + sep, Join(parts[1..], sep), sub);
    }
  }

  lemma {:induction false} StartsWithSelf(s: string)
    ensures StartsWith(s, s)
  {
    assert s[..|s|] == s;
  }

  /** A filter value that begins a row's make matches that row: the
      filter compares by substring, so "AU" also shows AUDI. */
  lemma {:induction false} MakeFilterMatchesPrefix(d: Details, cells: seq<string>, value: string)
    requires |cells| > 4 && cells[4] == DetailsText(d)
    requires StartsWith(OrNA(d.make), value)
    ensures FilterMatches("Make", value, cells)
  {
    var line := DetailLines(d)[0];
    assert line[..|"Make: " + value|] == "Make: " + OrNA(d.make)[..|value|];
    JoinContains(DetailLines(d), "\n", 0, "Make: " + value);
  }

  /** Choosing a row's own displayed make, colour, year, fuel type, tax
      status and MOT status keeps that row visible. */
  lemma {:induction false} OwnValuesMatch(d: Details, cells: seq<string>)
    requires |cells| > 4 && cells[4] == DetailsText(d)
    ensures RowVisible(FilterValues(OrNA(d.make), OrNA(d.color), YearShown(d.year), OrNA(d.fuelType),
                                    FormatTaxStatus(d.tax).text, FormatMOTStatus(d.mot).text), cells)
  {
    LineMatches(d, cells, 0, "Make", OrNA(d.make));
    LineMatches(d, cells, 1, "Color", OrNA(d.color));
    LineMatches(d, cells, 2, "Year", YearShown(d.year));
    LineMatches(d, cells, 3, "Fuel Type", OrNA(d.fuelType));
    LineMatches(d, cells, 4, "Tax", FormatTaxStatus(d.tax).text);
    LineMatches(d, cells, 5, "MOT", FormatMOTStatus(d.mot).text);
  }

  lemma {:induction false} LineMatches(d: Details, cells: seq<string>, i: nat, name: string, value: string)
    requires |cells| > 4 && cells[4] == DetailsText(d)
    requires i < 6 && DetailLines(d)[i] == name + ": " + value
    ensures FilterMatches(name, value, cells)
  {
    StartsWithSelf(DetailLines(d)[i]);
    JoinContains(DetailLines(d), "\n", i, name + ": " + value);
  }

  /** A `<tr>` element: the texts of its `td` cells, and whether it is
      displayed. */
  class TableRow {
    const cells: seq<string>
    var shown: bool

    constructor (cells: seq<string>, shown: bool)
      ensures this.cells == cells && this.shown == shown
    {
      this.cells := cells;
      this.shown := shown;
    }
  }

  /** The effective `applyFilters` (the later of its two declarations,
      which replaces the first): every row from index 0, the header row
      included, is shown or hidden by `RowVisible`. */
  method ApplyFilters(f: FilterValues, rows: seq<TableRow>)
    modifies set r | r in rows
    ensures forall i :: 0 <= i < |rows| ==> rows[i].shown == RowVisible(f, rows[i].cells)
  {
    var i := 0;
    while i < |rows|
      invariant 0 <= i <= |rows|
      invariant forall j :: 0 <= j < i ==> rows[j].shown == RowVisible(f, rows[j].cells)
    {
      rows[i].shown := RowVisible(f, rows[i].cells);
      i := i + 1;
    }
  }

  /** The same with the loop starting at 1, as the replaced declaration
      did: the header row keeps its display and the data rows are
      filtered alike. The rows of a table are distinct elements. */
  method ApplyFiltersSkippingHeader(f: FilterValues, rows: seq<TableRow>)
    requires forall i, j :: 0 <= i < j < |rows| ==> rows[i] != rows[j]
    modifies set r | r in rows
    ensures |rows| > 0 ==> rows[0].shown == old(rows[0].shown)
    ensures forall i :: 1 <= i < |rows| ==> rows[i].shown == RowVisible(f, rows[i].cells)
  {
    var i := 1;
    while i < |rows|
      invariant 1 <= i <= |rows| || |rows| == 0
      invariant |rows| > 0 ==> rows[0].shown == old(rows[0].shown)
      invariant forall j :: 1 <= j < i && j < |rows| ==> rows[j].shown == RowVisible(f, rows[j].cells)
    {
      rows[i].shown := RowVisible(f, rows[i].cells);
      i := i + 1;
    }
  }

  /** A concrete run of the effective declaration: a table whose header
      row has no `td` cells loses its header once a make is chosen. */
  method HeaderRowHiddenByFilter() returns (headerShown: bool, rowShown: bool)
    ensures !headerShown
    ensures rowShown
  {
    var header := new TableRow([], true);
    var data := new TableRow(["AB12 CDE", "", "", "", "Make: AUDI"], true);
    assert "Make" + ": " + "AUDI" == "Make: AUDI";
    StartsWithSelf("Make: AUDI");
    ContainsSelf("Make: AUDI", "Make: AUDI");
    var f := FilterValues("AUDI", "", "", "", "", "");
    RowWithoutDetailsHidden(f, header.cells);
    var rows := [header, data];
    ApplyFilters(f, rows);
    assert rows[0] == header && rows[1] == data;
    headerShown := header.shown;
    rowShown := data.shown;
  }

  // ---------------------------------------------------------------------
  // Polling

  /** One poll answer: whether to refetch, and the stored time after it.
      A null or empty `last_update_time` changes nothing. */
  function PollStep(lastUpdateTime: Option<string>, reported: Option<string>): (bool, Option<string>)
  {
    if reported.Some? && reported.value != "" && reported != lastUpdateTime then (true, reported)
    else (false, lastUpdateTime)
  }

  /** A refetch happens exactly for a new non-empty time, which is then
      remembered; the same answer again refetches nothing. */
  lemma {:induction false} PollRefetchesOnChange(lastUpdateTime: Option<string>, reported: Option<string>)
    ensures var (refetch, stored) := PollStep(lastUpdateTime, reported);
      (refetch <==> reported.Some? && reported.value != "" && reported != lastUpdateTime)
      && (refetch ==> stored == reported)
      && (!refetch ==> stored == lastUpdateTime)
      && !PollStep(stored, reported).0
  {
  }

  /** The global `lastUpdateTime` and the interval callback's check. */
  class Poller {
    var lastUpdateTime: Option<string>

    constructor ()
      ensures lastUpdateTime.None?
    {
      lastUpdateTime := None;
    }

    /** The `.then(data => ...)` of one poll: returns whether `fetchData`
        is called. */
    method OnPollResponse(reported: Option<string>) returns (refetch: bool)
      modifies this
      ensures (refetch, lastUpdateTime) == PollStep(old(lastUpdateTime), reported)
    {
      refetch := false;
      if reported.Some? && reported.value != "" && reported != lastUpdateTime {
        lastUpdateTime := reported;
        refetch := true;
      }
    }
  }
}
