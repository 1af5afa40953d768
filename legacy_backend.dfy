// The older Flask API (backend.py): the paged, filtered plate listing, the
// latest video of a plate, and the filter option lists.

module LegacyBackend {
  import opened Common
  import VideoCapture
  import PlatesApi

  // ---------------------------------------------------------------------
  // Records and their JSON form

  type CivilDate = VideoCapture.CivilDate

  /** A `timestamp` column: a day and the second within it. */
  datatype DateTime = DateTime(date: CivilDate, second: nat)

  predicate ValidDate(d: CivilDate)
  {
    1 <= d.month <= 12 && 1 <= d.day <= 31
  }

  predicate ValidDateTime(t: DateTime)
  {
    ValidDate(t.date) && t.second < 86400
  }

  /** One grouped row of the listing query. */
  datatype PlateRecord = PlateRecord(
    plateNumber: string,
    firstCaptureTime: Option<DateTime>,
    recentCaptureTime: Option<DateTime>,
    imageData: Option<string>,
    carMake: Option<string>,
    carColor: Option<string>,
    fuelType: Option<string>,
    motStatus: Option<string>,
    taxStatus: Option<string>,
    yearOfManufacture: Option<int>,
    videoUrl: Option<string>,
    taxDueDate: Option<CivilDate>,
    motExpiryDate: Option<CivilDate>)

  /** The column types guarantee real dates and times of day. */
  predicate WellFormed(r: PlateRecord)
  {
    (r.firstCaptureTime.Some? ==> ValidDateTime(r.firstCaptureTime.value))
    && (r.recentCaptureTime.Some? ==> ValidDateTime(r.recentCaptureTime.value))
    && (r.taxDueDate.Some? ==> ValidDate(r.taxDueDate.value))
    && (r.motExpiryDate.Some? ==> ValidDate(r.motExpiryDate.value))
  }

  datatype RecordJson = RecordJson(
    plateNumber: string,
    firstCaptureTime: Option<string>,
    recentCaptureTime: Option<string>,
    imageData: Option<string>,
    carMake: Option<string>,
    carColor: Option<string>,
    fuelType: Option<string>,
    motStatus: Option<string>,
    taxStatus: Option<string>,
    yearOfManufacture: Option<int>,
    videoUrl: Option<string>,
    taxDueDate: string,
    motExpiryDate: string)

  /** `%H:%M:%S`. */
  function ClockText(second: nat): (r: string)
    requires second < 86400
    ensures |r| == 8 && r[2] == ':' && r[5] == ':'
  {
    ZeroPad2Length(second / 3600);
    ZeroPad2Length(second / 60 % 60);
    ZeroPad2Length(second % 60);
    VideoCapture.ZeroPad(second / 3600, 2) + ":" + VideoCapture.ZeroPad(second / 60 % 60, 2) + ":"
      + VideoCapture.ZeroPad(second % 60, 2)
  }

  /** The three fields of the clock text are digits that spell the hour,
      minute and second, and together count back to the second of the
      day. */
  lemma {:induction false} ClockTextReadsBack(second: nat)
    requires second < 86400
    ensures var r := ClockText(second);
      AllDigits(r[..2]) && AllDigits(r[3..5]) && AllDigits(r[6..])
      && DigitsValue(r[..2]) == second / 3600 && DigitsValue(r[3..5]) == second / 60 % 60
      && DigitsValue(r[6..]) == second % 60
      && 3600 * DigitsValue(r[..2]) + 60 * DigitsValue(r[3..5]) + DigitsValue(r[6..]) == second
  {
    ZeroPad2Length(second / 3600);
    ZeroPad2Length(second / 60 % 60);
    ZeroPad2Length(second % 60);
    ClockFields(VideoCapture.ZeroPad(second / 3600, 2), VideoCapture.ZeroPad(second / 60 % 60, 2),
      VideoCapture.ZeroPad(second % 60, 2));
    ClockSplit(second);
  }

  /** Two-character fields joined by ':' are found again at 0, 3 and 6. */
  lemma ClockFields(h: string, m: string, s: string)
    requires |h| == 2 && |m| == 2 && |s| == 2
    ensures var r := h + ":" + m + ":" + s; r[..2] == h && r[3..5] == m && r[6..] == s
  {
  }

  /** Hours, minutes and seconds of the day add back up to the second. */
  lemma ClockSplit(second: nat)
    ensures 3600 * (second / 3600) + 60 * (second / 60 % 60) + second % 60 == second
  {
    var q := second / 60;
    assert second == 60 * q + second % 60;
    assert q == 60 * (q / 60) + q % 60;
    assert q / 60 == second / 3600;
  }

  lemma {:induction false} ZeroPad2Length(n: nat)
    requires n < 100
    ensures |VideoCapture.ZeroPad(n, 2)| == 2
  {
    assert Pow10(2) == 100 by {
      assert Pow10(1) == 10;
    }
  }

  /** `%Y-%m-%d %H:%M:%S`. */
  function StampText(t: DateTime): string
    requires ValidDateTime(t)
  {
    VideoCapture.DateText(t.date) + " " + ClockText(t.second)
  }

  /** A date printed as `%Y-%m-%d` is never the text "N/A". */
  lemma {:induction false} DateTextNotNA(d: CivilDate)
    requires ValidDate(d)
    ensures VideoCapture.DateText(d) != "N/A"
  {
    var m := VideoCapture.ZeroPad(d.month, 2);
    var dd := VideoCapture.ZeroPad(d.day, 2);
    assert m != [] && dd != [];
    assert |VideoCapture.DateText(d)| >= 5;
  }

  /** `strftime("%Y-%m-%d") if date else 'N/A'`. */
  function DayOrNA(d: Option<CivilDate>): (r: string)
    requires d.Some? ==> ValidDate(d.value)
    ensures r == "N/A" <==> d.None?
    ensures d.Some? ==> r == VideoCapture.DateText(d.value)
  {
    match d
    case None => "N/A"
    case Some(day) => DateTextNotNA(day); VideoCapture.DateText(day)
  }

  /** `strftime(…) if time else None`. */
  function StampOrNone(t: Option<DateTime>): (r: Option<string>)
    requires t.Some? ==> ValidDateTime(t.value)
    ensures r.None? <==> t.None?
  {
    match t
    case None => None
    case Some(time) => Some(StampText(time))
  }

  /** The dictionary built for each row of `view_data`. */
  function FormatRecord(r: PlateRecord): RecordJson
    requires WellFormed(r)
  {
    RecordJson(r.plateNumber, StampOrNone(r.firstCaptureTime), StampOrNone(r.recentCaptureTime),
               r.imageData, r.carMake, r.carColor, r.fuelType, r.motStatus, r.taxStatus,
               r.yearOfManufacture, r.videoUrl, DayOrNA(r.taxDueDate), DayOrNA(r.motExpiryDate))
  }

  /** Missing dates read 'N/A', missing capture times are null, and every
      other column is passed through. */
  lemma {:induction false} FormatRecordMissing(r: PlateRecord)
    requires WellFormed(r)
    ensures var j := FormatRecord(r);
      (j.taxDueDate == "N/A" <==> r.taxDueDate.None?)
      && (j.motExpiryDate == "N/A" <==> r.motExpiryDate.None?)
      && (j.firstCaptureTime.None? <==> r.firstCaptureTime.None?)
      && (j.recentCaptureTime.None? <==> r.recentCaptureTime.None?)
      && j.plateNumber == r.plateNumber && j.carMake == r.carMake && j.taxStatus == r.taxStatus
      && j.yearOfManufacture == r.yearOfManufacture && j.videoUrl == r.videoUrl
  {
  }

  // ---------------------------------------------------------------------
  // Filtering

  /** The six filter arguments; a missing one is ''. */
  datatype Filters = Filters(make: string, color: string, year: string, fuelType: string, tax: string, mot: string)

  function ArgOr(args: map<string, string>, key: string, default: string): string
  {
    if key in args then args[key] else default
  }

  function FiltersOf(args: map<string, string>): Filters
  {
    Filters(ArgOr(args, "make", ""), ArgOr(args, "color", ""), ArgOr(args, "year", ""),
            ArgOr(args, "fuelType", ""), ArgOr(args, "tax", ""), ArgOr(args, "mot", ""))
  }

  /** `(%s = '' OR column = %s)`: a NULL column equals nothing. */
  predicate ColumnMatches(filter: string, value: Option<string>)
  {
    filter == "" || value == Some(filter)
  }

  /** The year is compared as text (`year_of_manufacture::text`). */
  function YearAsText(year: Option<int>): Option<string>
  {
    match year case None => None case Some(y) => Some(IntToString(y))
  }

  predicate RecordMatches(f: Filters, r: PlateRecord)
  {
    ColumnMatches(f.make, r.carMake) && ColumnMatches(f.color, r.carColor)
    && ColumnMatches(f.year, YearAsText(r.yearOfManufacture)) && ColumnMatches(f.fuelType, r.fuelType)
    && ColumnMatches(f.tax, r.taxStatus) && ColumnMatches(f.mot, r.motStatus)
  }

  /** The rows the WHERE clause keeps, in query order. */
  function Matching(table: seq<PlateRecord>, f: Filters): (r: seq<PlateRecord>)
    ensures |r| <= |table|
    ensures forall x :: x in r <==> x in table && RecordMatches(f, x)
  {
    if table == [] then []
    else (if RecordMatches(f, table[0]) then [table[0]] else []) + Matching(table[1..], f)
  }

  /** With every filter empty the listing is the whole table. */
  lemma {:induction false} EmptyFiltersMatchAll(table: seq<PlateRecord>)
    ensures Matching(table, Filters("", "", "", "", "", "")) == table
  {
    if table != [] {
      EmptyFiltersMatchAll(table[1..]);
      assert table == [table[0]] + table[1..];
    }
  }

  /** A non-empty make filter keeps exactly the rows of that make. */
  lemma {:induction false} MakeFilterIsEquality(table: seq<PlateRecord>, f: Filters, r: PlateRecord)
    requires f.make != "" && f.color == f.year == f.fuelType == f.tax == f.mot == ""
    ensures r in Matching(table, f) <==> r in table && r.carMake == Some(f.make)
  {
  }

  // ---------------------------------------------------------------------
  // view_data

  /** `int(request.args.get(key, default))`; `None` is the ValueError. */
  function IntArg(args: map<string, string>, key: string, default: int): Option<int>
  {
    if key in args then DecimalText(args[key]) else Some(default)
  }

  /** Python's `a // b` for a positive divisor: the floor of the
      quotient. */
  function FloorDiv(a: int, b: int): (r: int)
    requires b > 0
    ensures b * r <= a < b * (r + 1)
  {
    a / b
  }

  /** `rows[offset : offset + limit]`, as LIMIT and OFFSET cut them. */
  function Window(rows: seq<PlateRecord>, offset: nat, limit: nat): (r: seq<PlateRecord>)
    ensures |r| <= limit
    ensures offset < |rows| ==> r != [] || limit == 0
    ensures forall k :: 0 <= k < |r| ==> offset + k < |rows| && r[k] == rows[offset + k]
  {
    var lo := if offset <= |rows| then offset else |rows|;
    var hi := if offset + limit <= |rows| then offset + limit else |rows|;
    rows[lo..hi]
  }

  datatype ViewResponse =
    | ServerError
    | ViewPage(data: seq<RecordJson>, totalPages: int, currentPage: int)

  function FormatAll(rows: seq<PlateRecord>): (r: seq<RecordJson>)
    requires forall x :: x in rows ==> WellFormed(x)
    ensures |r| == |rows|
    ensures forall k :: 0 <= k < |rows| ==> r[k] == FormatRecord(rows[k])
  {
    seq(|rows|, k requires 0 <= k < |rows| => FormatRecord(rows[k]))
  }

  /** `GET /view_data`. `table` is the grouped listing (one record per
      group of the GROUP BY), and `totalRows` is `SELECT COUNT(*) FROM
      license_plates`, which counts raw rows: several raw rows of one plate
      can make one group. A page or limit that is not an integer, a negative
      LIMIT or OFFSET (refused by the database) and a zero limit (division
      by zero) all end in a 500. */
  function ViewData(args: map<string, string>, table: seq<PlateRecord>, totalRows: nat): ViewResponse
    requires forall x :: x in table ==> WellFormed(x)
  {
    match (IntArg(args, "page", 1), IntArg(args, "limit", 10))
    case (Some(page), Some(limit)) => PageOf(args, table, totalRows, page, limit)
    case _ => ServerError
  }

  /** The answer once page and limit are integers. */
  function PageOf(args: map<string, string>, table: seq<PlateRecord>, totalRows: nat, page: int, limit: int): ViewResponse
    requires forall x :: x in table ==> WellFormed(x)
  {
    var offset := (page - 1) * limit;
    if limit < 0 || offset < 0 || limit == 0 then ServerError
    else
      var rows := Window(Matching(table, FiltersOf(args)), offset, limit);
      ViewPage(FormatAll(rows), FloorDiv(totalRows + limit - 1, limit), page)
  }

  /** `(total_rows + limit - 1) // limit` is the ceiling of
      `total_rows / limit`, the same page count as the newer endpoint's
      `Math.ceil`. */
  lemma {:induction false} FloorDivIsCeiling(totalRows: nat, limit: int)
    requires limit >= 1
    ensures FloorDiv(totalRows + limit - 1, limit) == PlatesApi.TotalPages(totalRows, limit)
  {
    var c := PlatesApi.TotalPages(totalRows, limit);
    var f := FloorDiv(totalRows + limit - 1, limit);
    CeilingUnique(totalRows, limit, f, c);
  }

  /** The ceiling of `n / l` is the only count `c` with
      `(c - 1) * l < n <= c * l`, and the floor of `(n + l - 1) / l` is one. */
  lemma {:induction false} CeilingUnique(n: nat, l: int, f: int, c: nat)
    requires l >= 1
    requires l * f <= n + l - 1 < l * (f + 1)
    requires n <= c * l && (c > 0 ==> (c - 1) * l < n)
    ensures f == c
  {
    assert l * (f + 1) == l * f + l;
    assert (c - 1) * l == c * l - l && (c + 1) * l == c * l + l;
    if f < c {
      PlatesApi.MulMonotone(f, c - 1, l);
    } else if f > c {
      PlatesApi.MulMonotone(c + 1, f, l);
    }
  }

  /** A valid page request shows the page's slice of the matching rows,
      formatted, at most `limit` of them, and counts pages over the whole
      table whatever the filters. */
  lemma {:induction false} ViewDataPage(args: map<string, string>, table: seq<PlateRecord>, totalRows: nat,
                                        page: int, limit: int)
    requires forall x :: x in table ==> WellFormed(x)
    requires IntArg(args, "page", 1) == Some(page) && IntArg(args, "limit", 10) == Some(limit)
    requires page >= 1 && limit >= 1
    ensures var r := ViewData(args, table, totalRows);
      var matching := Matching(table, FiltersOf(args));
      r.ViewPage? && r.currentPage == page && |r.data| <= limit
      && r.totalPages == PlatesApi.TotalPages(totalRows, limit)
      && forall k :: 0 <= k < |r.data| ==>
           PlatesApi.Offset(page, limit) + k < |matching|
           && r.data[k] == FormatRecord(matching[PlatesApi.Offset(page, limit) + k])
  {
    ViewDataIsWindow(args, table, totalRows, page, limit);
  }

  lemma {:induction false} ViewDataIsWindow(args: map<string, string>, table: seq<PlateRecord>, totalRows: nat,
                                            page: int, limit: int)
    requires forall x :: x in table ==> WellFormed(x)
    requires IntArg(args, "page", 1) == Some(page) && IntArg(args, "limit", 10) == Some(limit)
    requires page >= 1 && limit >= 1
    ensures ViewData(args, table, totalRows)
            == ViewPage(FormatAll(Window(Matching(table, FiltersOf(args)), PlatesApi.Offset(page, limit), limit)),
                        PlatesApi.TotalPages(totalRows, limit), page)
  {
    assert ViewData(args, table, totalRows) == PageOf(args, table, totalRows, page, limit);
    PageOfIsWindow(args, table, totalRows, page, limit);
  }

  lemma {:induction false} PageOfIsWindow(args: map<string, string>, table: seq<PlateRecord>, totalRows: nat,
                                          page: int, limit: int)
    requires forall x :: x in table ==> WellFormed(x)
    requires page >= 1 && limit >= 1
    ensures PageOf(args, table, totalRows, page, limit)
            == ViewPage(FormatAll(Window(Matching(table, FiltersOf(args)), PlatesApi.Offset(page, limit), limit)),
                        PlatesApi.TotalPages(totalRows, limit), page)
  {
    PlatesApi.MulNonNegative(page - 1, limit);
    FloorDivIsCeiling(totalRows, limit);
  }

  /** The request is a server error exactly when the page or the limit does
      not parse, or either is below 1: a zero limit divides by zero, a
      negative limit is a negative LIMIT, and a page below 1 with a positive
      limit is a negative OFFSET. */
  lemma {:induction false} ViewDataErrors(args: map<string, string>, table: seq<PlateRecord>, totalRows: nat)
    requires forall x :: x in table ==> WellFormed(x)
    ensures IntArg(args, "page", 1).None? ==> ViewData(args, table, totalRows).ServerError?
    ensures IntArg(args, "limit", 10).None? ==> ViewData(args, table, totalRows).ServerError?
    ensures IntArg(args, "limit", 10) == Some(0) ==> ViewData(args, table, totalRows).ServerError?
    ensures !("page" in args) && !("limit" in args) ==> ViewData(args, table, totalRows).ViewPage?
    ensures ViewData(args, table, totalRows).ServerError? <==>
      IntArg(args, "page", 1).None? || IntArg(args, "limit", 10).None?
      || IntArg(args, "page", 1).value < 1 || IntArg(args, "limit", 10).value < 1
  {
    match (IntArg(args, "page", 1), IntArg(args, "limit", 10))
    case (Some(page), Some(limit)) =>
      assert ViewData(args, table, totalRows) == PageOf(args, table, totalRows, page, limit);
      PageOfErrors(args, table, totalRows, page, limit);
    case _ =>
  }

  /** Once page and limit are integers, the answer is an error exactly when
      either is below 1. */
  lemma {:induction false} PageOfErrors(args: map<string, string>, table: seq<PlateRecord>, totalRows: nat,
                                        page: int, limit: int)
    requires forall x :: x in table ==> WellFormed(x)
    ensures PageOf(args, table, totalRows, page, limit).ServerError? <==> page < 1 || limit < 1
  {
    if page < 1 && limit >= 1 {
      NegativeOffset(page, limit);
    } else if page >= 1 && limit >= 1 {
      PlatesApi.MulNonNegative(page - 1, limit);
    }
  }

  /** A page below 1 with a positive limit gives a negative offset. */
  lemma {:induction false} NegativeOffset(page: int, limit: int)
    requires page < 1 && limit >= 1
    ensures (page - 1) * limit < 0
  {
    var k := 1 - page;
    assert (page - 1) * limit == -(k * limit);
    assert k * limit >= limit by {
      PlatesApi.MulNonNegative(k - 1, limit);
      assert k * limit == (k - 1) * limit + limit;
    }
  }

  /** The page count is that of `COUNT(*)` alone: two requests with the
      same page and limit count the same pages, whatever filters they ask
      for and whatever the grouped listing holds. */
  lemma {:induction false} TotalPagesIgnoresFilters(args: map<string, string>, other: map<string, string>,
                                                    table: seq<PlateRecord>, otherTable: seq<PlateRecord>,
                                                    totalRows: nat)
    requires forall x :: x in table ==> WellFormed(x)
    requires forall x :: x in otherTable ==> WellFormed(x)
    requires IntArg(other, "page", 1) == IntArg(args, "page", 1)
    requires IntArg(other, "limit", 10) == IntArg(args, "limit", 10)
    requires ViewData(args, table, totalRows).ViewPage?
    ensures ViewData(other, otherTable, totalRows).ViewPage?
    ensures ViewData(other, otherTable, totalRows).totalPages == ViewData(args, table, totalRows).totalPages
  {
    var page := IntArg(args, "page", 1).value;
    var limit := IntArg(args, "limit", 10).value;
    assert ViewData(args, table, totalRows) == PageOf(args, table, totalRows, page, limit);
    assert ViewData(other, otherTable, totalRows) == PageOf(other, otherTable, totalRows, page, limit);
  }

  /** Two raw rows of one plate that differ only in their capture times
      make one group of the listing but count twice in `COUNT(*)`: with a
      limit of 1 the answer lists one record on page 1 of 2. */
  lemma {:induction false} GroupedPlateCountsTwice(record: PlateRecord)
    requires WellFormed(record)
    ensures var r := ViewData(map["limit" := "1"], [record], 2);
      r.ViewPage? && |r.data| == 1 && r.totalPages == 2
  {
    var args := map["limit" := "1"];
    DecimalTextOfIntToString(1);
    assert IntToString(1) == "1";
    ViewDataPage(args, [record], 2, 1, 1);
    assert Matching([record], FiltersOf(args)) == [record];
  }

  // ---------------------------------------------------------------------
  // serve_video

  datatype VideoResponse = SendFile(name: string) | NotFound

  /** `[f for f in os.listdir(...) if f.startswith(plate_number)]`. */
  function VideosOf(listing: seq<string>, plate: string): (r: seq<string>)
    ensures forall f :: f in r <==> f in listing && StartsWith(f, plate)
  {
    if listing == [] then []
    else (if StartsWith(listing[0], plate) then [listing[0]] else []) + VideosOf(listing[1..], plate)
  }

  /** `GET /video/<plate_number>`: sort the matching names in descending
      order and send the first. */
  function ServeVideo(listing: seq<string>, plate: string): VideoResponse
  {
    var ascending := SortNames(VideosOf(listing, plate));
    if ascending == [] then NotFound else SendFile(ascending[|ascending| - 1])
  }

  /** The file sent is the greatest name that starts with the plate; with
      no such name the answer is 404. */
  lemma {:induction false} ServeVideoLatest(listing: seq<string>, plate: string)
    ensures ServeVideo(listing, plate).NotFound? <==> forall f :: f in listing ==> !StartsWith(f, plate)
    ensures ServeVideo(listing, plate).SendFile? ==>
      var name := ServeVideo(listing, plate).name;
      name in listing && StartsWith(name, plate)
      && forall f :: f in listing && StartsWith(f, plate) ==> LexLessEq(f, name)
  {
    var videos := VideosOf(listing, plate);
    SortNamesMembers(videos);
    var ascending := SortNames(videos);
    if ascending != [] {
      SortedLastIsGreatest(ascending);
      assert ascending[0] in listing && StartsWith(ascending[0], plate);
    } else {
      forall f | f in listing
        ensures !StartsWith(f, plate)
      {
        assert f !in videos;
      }
    }
  }

  lemma {:induction false} SortNamesMembers(s: seq<string>)
    ensures forall f :: f in SortNames(s) <==> f in s
  {
    var r := SortNames(s);
    assert forall f :: f in r <==> f in multiset(r);
    assert forall f :: f in s <==> f in multiset(s);
  }

  lemma {:induction false} SortedLastIsGreatest(s: seq<string>)
    requires SortedNames(s) && s != []
    ensures forall f :: f in s ==> LexLessEq(f, s[|s| - 1])
  {
    forall f | f in s
      ensures LexLessEq(f, s[|s| - 1])
    {
      var k :| 0 <= k < |s| && s[k] == f;
    }
  }

  // ---------------------------------------------------------------------
  // filter_data

  /** `[v for v in values if v]` over text columns. */
  function TruthyTexts(values: seq<Option<string>>): (r: seq<string>)
    ensures |r| <= |values|
  {
    if values == [] then []
    else (if values[0].Some? && values[0].value != "" then [values[0].value] else [])
         + TruthyTexts(values[1..])
  }

  /** Exactly the non-empty texts survive. */
  lemma {:induction false} TruthyTextsMembers(values: seq<Option<string>>, x: string)
    ensures x in TruthyTexts(values) <==> x != "" && Some(x) in values
  {
    if values != [] {
      TruthyTextsMembers(values[1..], x);
      assert values == [values[0]] + values[1..];
    }
  }

  /** `[v for v in values if v]` over the year column: 0 is dropped too. */
  function TruthyYears(values: seq<Option<int>>): (r: seq<int>)
    ensures |r| <= |values|
    ensures forall y :: y in r <==> y != 0 && Some(y) in values
  {
    if values == [] then []
    else (if values[0].Some? && values[0].value != 0 then [values[0].value] else [])
         + TruthyYears(values[1..])
  }

  /** The filter keeps query order: it works piece by piece. */
  lemma {:induction false} TruthyTextsAppend(a: seq<Option<string>>, b: seq<Option<string>>)
    ensures TruthyTexts(a + b) == TruthyTexts(a) + TruthyTexts(b)
  {
    if a != [] {
      TruthyTextsAppend(a[1..], b);
      assert (a + b)[1..] == a[1..] + b;
      var head := if a[0].Some? && a[0].value != "" then [a[0].value] else [];
      assert TruthyTexts(a + b) == head + TruthyTexts(a[1..] + b);
      assert TruthyTexts(a) == head + TruthyTexts(a[1..]);
    } else {
      assert a + b == b;
    }
  }

  datatype FilterLists = FilterLists(carMakes: seq<string>, carColors: seq<string>, years: seq<int>, fuelTypes: seq<string>)

  /** `GET /filter_data`, given the four DISTINCT column reads. */
  function FilterData(makes: seq<Option<string>>, colors: seq<Option<string>>, years: seq<Option<int>>,
                      fuelTypes: seq<Option<string>>): FilterLists
  {
    FilterLists(TruthyTexts(makes), TruthyTexts(colors), TruthyYears(years), TruthyTexts(fuelTypes))
  }
}
