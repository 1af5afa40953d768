// The plate listing endpoint (src/app/api/plates/route.ts): query
// validation, the parameterised WHERE clause, the page window and the page
// count.

module PlatesApi {
  import opened Common

  // ---------------------------------------------------------------------
  // Query validation

  /** `Number(text)` as far as the schema cares: an integer, or anything
      else (`NaN`, a fraction). */
  datatype Coerced = Integer(n: int) | NotInteger

  /** `Number(s)` for plain decimal text: blank text is 0, an optional sign
      followed by digits is that integer, everything else is not an
      integer. */
  function CoerceNumber(s: string): (r: Coerced)
    ensures Trim(s) != [] ==> (r.Integer? <==> DecimalText(s).Some?)
  {
    if Trim(s) == [] then Integer(0)
    else
      match DecimalText(s)
      case Some(n) => Integer(n)
      case None => NotInteger
  }

  /** `Number` reads back what `String` writes. */
  lemma {:induction false} CoerceNumberOfIntToString(i: int)
    ensures CoerceNumber(IntToString(i)) == Integer(i)
  {
    DecimalTextOfIntToString(i);
    TrimOfIntToString(i);
  }

  /** The outcome of validating one field. */
  datatype Parsed<T> = Invalid | Valid(value: T)

  /** `page: z.coerce.number().int().min(1).default(1)`. */
  function PageOf(v: Option<string>): Parsed<int>
  {
    match v
    case None => Valid(1)
    case Some(s) =>
      match CoerceNumber(s)
      case Integer(n) => if n >= 1 then Valid(n) else Invalid
      case NotInteger => Invalid
  }

  /** `limit: z.coerce.number().int().min(1).max(100).default(10)`. */
  function LimitOf(v: Option<string>): Parsed<int>
  {
    match v
    case None => Valid(10)
    case Some(s) =>
      match CoerceNumber(s)
      case Integer(n) => if 1 <= n <= 100 then Valid(n) else Invalid
      case NotInteger => Invalid
  }

  /** `year: z.coerce.number().int().optional()`. */
  function YearOf(v: Option<string>): Parsed<Option<int>>
  {
    match v
    case None => Valid(None)
    case Some(s) =>
      match CoerceNumber(s)
      case Integer(n) => Valid(Some(n))
      case NotInteger => Invalid
  }

  /** The validated query. */
  datatype Query = Query(page: int, limit: int, search: Option<string>, make: Option<string>,
                         color: Option<string>, year: Option<int>, tax: Option<string>, mot: Option<string>)

  function Lookup(params: map<string, string>, key: string): Option<string>
  {
    if key in params then Some(params[key]) else None
  }

  /** `QuerySchema.safeParse(Object.fromEntries(searchParams))`; `None` is
      a failed validation. A query is accepted exactly when a given page
      coerces to an integer of at least 1, a given limit to one in 1..100
      and a given year to any integer; the accepted page, limit and year
      are those integers or the defaults 1, 10 and none, and the text
      filters pass through unchanged. Keys outside the schema are
      dropped. */
  function ValidateQuery(params: map<string, string>): (r: Option<Query>)
    ensures r.Some? ==> 1 <= r.value.page && 1 <= r.value.limit <= 100
    ensures r.Some? ==> r.value.search == Lookup(params, "search") && r.value.make == Lookup(params, "make")
    ensures r.Some? <==>
      ("page" in params ==> CoerceNumber(params["page"]).Integer? && CoerceNumber(params["page"]).n >= 1)
      && ("limit" in params ==>
            CoerceNumber(params["limit"]).Integer? && 1 <= CoerceNumber(params["limit"]).n <= 100)
      && ("year" in params ==> CoerceNumber(params["year"]).Integer?)
    ensures r.Some? ==>
      r.value.page == (if "page" in params then CoerceNumber(params["page"]).n else 1)
      && r.value.limit == (if "limit" in params then CoerceNumber(params["limit"]).n else 10)
      && r.value.year == (if "year" in params then Some(CoerceNumber(params["year"]).n) else None)
    ensures r.Some? ==>
      r.value.color == Lookup(params, "color") && r.value.tax == Lookup(params, "tax")
      && r.value.mot == Lookup(params, "mot")
  {
    match (PageOf(Lookup(params, "page")), LimitOf(Lookup(params, "limit")), YearOf(Lookup(params, "year")))
    case (Valid(page), Valid(limit), Valid(year)) =>
      Some(Query(page, limit, Lookup(params, "search"), Lookup(params, "make"), Lookup(params, "color"),
                 year, Lookup(params, "tax"), Lookup(params, "mot")))
    case _ => None
  }

  /** A page below 1, a limit outside 1..100, or a page, limit or year that
      is not an integer fails validation; missing page and limit default to
      1 and 10. */
  lemma {:induction false} ValidateQueryRejects(params: map<string, string>)
    ensures "page" in params && CoerceNumber(params["page"]).Integer? && CoerceNumber(params["page"]).n < 1
            ==> ValidateQuery(params).None?
    ensures ("limit" in params && CoerceNumber(params["limit"]).Integer?
             && !(1 <= CoerceNumber(params["limit"]).n <= 100)) ==> ValidateQuery(params).None?
    ensures (exists key | key in {"page", "limit", "year"} :: key in params && CoerceNumber(params[key]).NotInteger?)
            ==> ValidateQuery(params).None?
    ensures ValidateQuery(params).Some? && "page" !in params ==> ValidateQuery(params).value.page == 1
    ensures ValidateQuery(params).Some? && "limit" !in params ==> ValidateQuery(params).value.limit == 10
  {
  }

  /** An empty `year` parameter is coerced to the integer 0, so it is a
      valid query that filters on year 0 rather than no year filter. */
  lemma {:induction false} EmptyYearIsZero(params: map<string, string>)
    requires "year" in params && params["year"] == ""
    requires ValidateQuery(params).Some?
    ensures ValidateQuery(params).value.year == Some(0)
  {
  }

  // ---------------------------------------------------------------------
  // The WHERE clause

  /** A bound query parameter. */
  datatype Param = Text(s: string) | Number(n: int)

  /** One condition before numbering: column, operator, bound value. */
  datatype Term = Term(field: string, op: string, value: Param)

  const SearchField: string := "UPPER(REPLACE(plate_number, ' ', ''))"

  /** The placeholder `$k`. */
  function Placeholder(k: nat): string
  {
    "$" + NatToString(k)
  }

  /** Distinct positions get distinct placeholders. */
  lemma {:induction false} PlaceholderInjective(j: nat, k: nat)
    requires j != k
    ensures Placeholder(j) != Placeholder(k)
  {
    NatToStringValue(j);
    NatToStringValue(k);
    assert Placeholder(j)[1..] == NatToString(j);
    assert Placeholder(k)[1..] == NatToString(k);
  }

  /** The condition text pushed for the `k`-th parameter. */
  function Clause(t: Term, k: nat): string
  {
    t.field + " " + t.op + " " + Placeholder(k)
  }

  /** The conditions, each numbered by its position (1-based). */
  function Clauses(terms: seq<Term>): (r: seq<string>)
    ensures |r| == |terms|
  {
    seq(|terms|, k requires 0 <= k < |terms| => Clause(terms[k], k + 1))
  }

  function Values(terms: seq<Term>): (r: seq<Param>)
    ensures |r| == |terms|
  {
    seq(|terms|, k requires 0 <= k < |terms| => terms[k].value)
  }

  /** `value !== undefined && value !== null && value !== ''`. */
  predicate Present(v: Option<Param>)
  {
    v.Some? && v.value != Text("")
  }

  /** `%${value}%`. */
  function Wrapped(p: Param): Param
  {
    Text("%" + (match p case Text(s) => s case Number(n) => IntToString(n)) + "%")
  }

  /** What `addCondition(field, value, operator)` pushes. */
  function ConditionTerms(field: string, value: Option<Param>, op: string): (r: seq<Term>)
    ensures |r| <= 1
  {
    if Present(value) then [Term(field, op, if op == "ILIKE" then Wrapped(value.value) else value.value)]
    else []
  }

  /** What the search branch pushes: the term upper-cased, without
      whitespace, between '%' signs. */
  function SearchTerms(search: Option<string>): (r: seq<Term>)
    ensures |r| <= 1
  {
    if search.Some? && search.value != "" then [Term(SearchField, "ILIKE", Text("%" + NormalizePlate(search.value) + "%"))]
    else []
  }

  function TextParam(v: Option<string>): Option<Param>
  {
    match v case None => None case Some(s) => Some(Text(s))
  }

  function NumberParam(v: Option<int>): Option<Param>
  {
    match v case None => None case Some(n) => Some(Number(n))
  }

  /** The conditions of a query in the order the handler adds them:
      search, make, colour, year, tax, MOT. */
  function FilterTerms(q: Query): (r: seq<Term>)
    ensures |r| <= 6
  {
    SearchTerms(q.search)
    + ConditionTerms("car_make", TextParam(q.make), "=")
    + ConditionTerms("car_color", TextParam(q.color), "=")
    + ConditionTerms("year_of_manufacture", NumberParam(q.year), "=")
    + ConditionTerms("tax_status", TextParam(q.tax), "=")
    + ConditionTerms("mot_status", TextParam(q.mot), "=")
  }

  /** A query without filters, or with only empty ones, has no
      condition. */
  lemma {:induction false} EmptyFiltersAddNothing(q: Query)
    requires q.search.None? || q.search == Some("")
    requires q.make.None? || q.make == Some("")
    requires q.color.None? || q.color == Some("")
    requires q.tax.None? || q.tax == Some("")
    requires q.mot.None? || q.mot == Some("")
    requires q.year.None?
    ensures FilterTerms(q) == []
    ensures WhereClause(Clauses(FilterTerms(q))) == ""
  {
  }

  /** A filter given a non-empty value adds its equality condition. */
  lemma {:induction false} MakeFilterAdds(q: Query)
    requires q.make.Some? && q.make.value != ""
    ensures Term("car_make", "=", Text(q.make.value)) in FilterTerms(q)
  {
    var before := SearchTerms(q.search);
    assert FilterTerms(q)[|before|] == Term("car_make", "=", Text(q.make.value));
  }

  /** Placeholder `$k` of the `k`-th condition refers to `queryParams[k-1]`,
      the value of that condition, and no other condition uses it. */
  lemma {:induction false} PlaceholdersBind(terms: seq<Term>, k: nat)
    requires 1 <= k <= |terms|
    ensures Clauses(terms)[k - 1] == Clause(terms[k - 1], k)
    ensures Values(terms)[k - 1] == terms[k - 1].value
    ensures forall j :: 1 <= j <= |terms| && j != k ==> Placeholder(j) != Placeholder(k)
  {
    forall j | 1 <= j <= |terms| && j != k
      ensures Placeholder(j) != Placeholder(k)
    {
      PlaceholderInjective(j, k);
    }
  }

  /** `conditions.length > 0 ? WHERE … AND … : ''`. */
  function WhereClause(conditions: seq<string>): (r: string)
    ensures conditions == [] <==> r == ""
  {
    if conditions == [] then "" else "WHERE " + Join(conditions, " AND ")
  }

  /** The two arrays the handler fills. `terms` is the sequence of
      conditions they stand for. */
  class QueryBuilder {
    var conditions: seq<string>
    var queryParams: seq<Param>
    ghost var terms: seq<Term>

    /** Every condition names the placeholder of its own parameter. */
    ghost predicate Valid()
      reads this
    {
      conditions == Clauses(terms) && queryParams == Values(terms)
    }

    constructor ()
      ensures Valid() && terms == []
    {
      conditions := [];
      queryParams := [];
      terms := [];
    }

    /** Push a value, then a condition naming `$queryParams.length`. */
    method Push(t: Term)
      requires Valid()
      modifies this
      ensures Valid() && terms == old(terms) + [t]
    {
      queryParams := queryParams + [t.value];
      conditions := conditions + [Clause(t, |queryParams|)];
      terms := terms + [t];
    }

    /** `addCondition(field, value, operator)`. */
    method AddCondition(field: string, value: Option<Param>, op: string)
      requires Valid()
      modifies this
      ensures Valid() && terms == old(terms) + ConditionTerms(field, value, op)
    {
      if Present(value) {
        var paramValue := if op == "ILIKE" then Wrapped(value.value) else value.value;
        Push(Term(field, op, paramValue));
      }
    }

    /** The `if (search)` branch. */
    method AddSearch(search: Option<string>)
      requires Valid()
      modifies this
      ensures Valid() && terms == old(terms) + SearchTerms(search)
    {
      if search.Some? && search.value != "" {
        Push(Term(SearchField, "ILIKE", Text("%" + NormalizePlate(search.value) + "%")));
      }
    }
  }

  /** The condition-building part of `GET`. */
  method BuildFilter(q: Query) returns (whereClause: string, queryParams: seq<Param>)
    ensures queryParams == Values(FilterTerms(q))
    ensures whereClause == WhereClause(Clauses(FilterTerms(q)))
  {
    var b := new QueryBuilder();
    b.AddSearch(q.search);
    assert b.terms == SearchTerms(q.search);
    ghost var sofar := b.terms;
    b.AddCondition("car_make", TextParam(q.make), "=");
    assert b.terms == sofar + ConditionTerms("car_make", TextParam(q.make), "=");
    sofar := b.terms;
    b.AddCondition("car_color", TextParam(q.color), "=");
    assert b.terms == sofar + ConditionTerms("car_color", TextParam(q.color), "=");
    sofar := b.terms;
    b.AddCondition("year_of_manufacture", NumberParam(q.year), "=");
    assert b.terms == sofar + ConditionTerms("year_of_manufacture", NumberParam(q.year), "=");
    sofar := b.terms;
    b.AddCondition("tax_status", TextParam(q.tax), "=");
    assert b.terms == sofar + ConditionTerms("tax_status", TextParam(q.tax), "=");
    sofar := b.terms;
    b.AddCondition("mot_status", TextParam(q.mot), "=");
    assert b.terms == sofar + ConditionTerms("mot_status", TextParam(q.mot), "=");
    assert b.terms == FilterTerms(q);
    whereClause := WhereClause(b.conditions);
    queryParams := b.queryParams;
  }

  // ---------------------------------------------------------------------
  // Paging

  /** `(page - 1) * limit`: the rows on the pages before `page`. */
  function Offset(page: int, limit: int): (r: int)
    requires page >= 1 && limit >= 1
    ensures r >= 0
    ensures page == 1 <==> r == 0
  {
    MulNonNegative(page - 1, limit);
    MulPositive(page - 1, limit);
    (page - 1) * limit
  }

  lemma {:induction false} MulNonNegative(a: int, b: int)
    requires a >= 0 && b >= 0
    ensures a * b >= 0
  {
  }

  lemma {:induction false} MulPositive(a: int, b: int)
    requires a >= 0 && b >= 1
    ensures a >= 1 ==> a * b >= b
  {
  }

  /** `Math.ceil(totalRows / limit)`: the fewest pages of `limit` rows that
      hold every row. */
  function TotalPages(totalRows: nat, limit: int): (r: nat)
    requires limit >= 1
    ensures totalRows <= r * limit
    ensures r > 0 ==> (r - 1) * limit < totalRows
  {
    if totalRows % limit == 0 then totalRows / limit else totalRows / limit + 1
  }

  /** A page is in range exactly when it starts before the last row. */
  lemma {:induction false} PageInRange(page: int, limit: int, totalRows: nat)
    requires page >= 1 && limit >= 1
    ensures Offset(page, limit) < totalRows <==> page <= TotalPages(totalRows, limit)
  {
    var n := TotalPages(totalRows, limit);
    if page <= n {
      MulMonotone(page - 1, n - 1, limit);
    } else {
      MulMonotone(n, page - 1, limit);
    }
  }

  lemma {:induction false} MulMonotone(a: int, b: int, c: int)
    requires 0 <= a <= b && c >= 0
    ensures a * c <= b * c
  {
  }

  /** The row query: the WHERE clause, newest first, with LIMIT and OFFSET
      bound to the two placeholders after the filters'. */
  function DataQuery(whereClause: string, n: nat): string
  {
    "SELECT * FROM license_plates " + whereClause + " ORDER BY recent_capture_time DESC LIMIT "
      + Placeholder(n + 1) + " OFFSET " + Placeholder(n + 2)
  }

  function CountQuery(whereClause: string): string
  {
    "SELECT COUNT(*) FROM license_plates " + whereClause
  }

  /** `[...queryParams, limit, offset]`: `$n+1` is the limit and `$n+2` the
      offset, and the filters keep their own placeholders. */
  lemma {:induction false} DataArgsBind(terms: seq<Term>, limit: int, offset: int)
    ensures var args := Values(terms) + [Number(limit), Number(offset)];
      |args| == |terms| + 2 && args[|terms|] == Number(limit) && args[|terms| + 1] == Number(offset)
      && args[..|terms|] == Values(terms)
  {
  }

  /** The statements `GET` sends. */
  datatype Issued = Issued(dataSql: string, dataArgs: seq<Param>, countSql: string, countArgs: seq<Param>)

  datatype Response =
    | InvalidQuery
    | InternalError(issued: Issued)
    | Listing(issued: Issued, currentPage: int, totalPages: nat, totalRows: nat)

  function Status(r: Response): int
  {
    match r
    case InvalidQuery => 400
    case InternalError(_) => 500
    case Listing(_, _, _, _) => 200
  }

  /** `GET /api/plates`. The database is the count it returns and whether
      a statement fails; the rows and the filter option lists are the
      database's business. */
  method Get(searchParams: map<string, string>, totalRows: nat, queryFails: bool) returns (r: Response)
    ensures ValidateQuery(searchParams).None? <==> Status(r) == 400
    ensures ValidateQuery(searchParams).Some? ==>
      var q := ValidateQuery(searchParams).value;
      var terms := FilterTerms(q);
      var whereClause := WhereClause(Clauses(terms));
      var issued := Issued(DataQuery(whereClause, |terms|), Values(terms) + [Number(q.limit), Number(Offset(q.page, q.limit))],
                           CountQuery(whereClause), Values(terms));
      r == if queryFails then InternalError(issued)
           else Listing(issued, q.page, TotalPages(totalRows, q.limit), totalRows)
  {
    var validation := ValidateQuery(searchParams);
    if validation.None? {
      return InvalidQuery;
    }
    var q := validation.value;
    var offset := Offset(q.page, q.limit);
    var whereClause, queryParams := BuildFilter(q);
    var issued := Issued(DataQuery(whereClause, |queryParams|), queryParams + [Number(q.limit), Number(offset)],
                         CountQuery(whereClause), queryParams);
    if queryFails {
      return InternalError(issued);
    }
    r := Listing(issued, q.page, TotalPages(totalRows, q.limit), totalRows);
  }
}
