/** The table component: how schema columns become grid columns, the row
    filter (global search AND per-column filters), the page-size options,
    the pagination model and the component state that the search box, the
    filter inputs and the grid's callbacks replace. Sorting, selection
    bookkeeping and page slicing happen inside the grid library. */
module CommonDataTable {
  import opened Js
  import Seqs

  /** A row: column key to cell value. */
  type Row = map<string, Value>

  /** The filter object: field name and input value, in the order the
      object received its keys. */
  type Filters = seq<(string, Value)>

  // ---------------------------------------------------------------------------
  // Columns

  /** A column as a page declares it; absent properties are None. */
  datatype ColumnSpec = ColumnSpec(
    id: Option<string>,
    field: Option<string>,
    headerName: Option<string>,
    caption: Option<string>,
    colType: Option<string>,
    schemaType: Option<string>,
    sortable: bool,
    width: Option<int>,
    resizable: bool,
    actions: Option<seq<string>>)

  datatype Action = EditAction | DeleteAction

  /** A column as handed to the grid: the page's own definition when it is
      already grid-shaped, or one built from a schema column. */
  datatype GridColumn =
    | PassThrough(spec: ColumnSpec)
    | Built(
        field: Option<string>,
        headerName: Option<string>,
        sortable: bool,
        width: Option<int>,
        minWidth: Option<int>,
        maxWidth: Option<int>,
        resizable: bool,
        gridType: Option<string>,
        parsesDates: bool,
        actionItems: seq<Action>)

  /** A truthy string property. */
  predicate Present(o: Option<string>) {
    o.Some? && o.value != ""
  }

  /** The row actions an actions column offers, edit before delete. */
  function ActionItems(actions: Option<seq<string>>): (r: seq<Action>)
    ensures EditAction in r <==> actions.Some? && "edit" in actions.value
    ensures DeleteAction in r <==> actions.Some? && "delete" in actions.value
    ensures |r| == 2 ==> r == [EditAction, DeleteAction]
  {
    if actions.None? then []
    else
      (if "edit" in actions.value then [EditAction] else [])
      + (if "delete" in actions.value then [DeleteAction] else [])
  }

  predicate IsDateType(t: string) {
    t == "date" || t == "dateTime" || t == "datetime"
  }

  /** `col.field` */
  function GridField(col: GridColumn): Option<string> {
    if col.PassThrough? then col.spec.field else col.field
  }

  /** `col.type || col._schemaType || "string"` */
  function TypeOf(col: GridColumn): string {
    match col
    case PassThrough(spec) =>
      if Present(spec.colType) then spec.colType.value
      else if Present(spec.schemaType) then spec.schemaType.value
      else "string"
    case Built(_, _, _, _, _, _, _, gridType, _, _) =>
      if Present(gridType) then gridType.value else "string"
  }

  /** One entry of `mappedColumns`. */
  function MapColumn(c: ColumnSpec): (r: GridColumn)
    ensures Present(c.field) || Present(c.headerName) ==> r == PassThrough(c)
    ensures !(Present(c.field) || Present(c.headerName)) ==>
      && r.Built?
      && GridField(r) == c.id
      && r.sortable == c.sortable
      && (IsDateType(TypeOf(r)) <==> c.colType == Some("date") || c.colType == Some("datetime"))
      && (r.parsesDates <==> IsDateType(TypeOf(r)))
    ensures !(Present(c.field) || Present(c.headerName)) && c.colType != Some("actions")
              && c.width.Some? && !c.resizable ==>
      r.width == r.minWidth == r.maxWidth == c.width
    ensures !(Present(c.field) || Present(c.headerName)) && c.colType == Some("actions") ==>
      r.width.Some? && r.width.value != 0 && TypeOf(r) == "actions"
  {
    if Present(c.field) || Present(c.headerName) then PassThrough(c)
    else
      var header :=
        if Present(c.caption) then c.caption
        else if Present(c.headerName) then c.headerName
        else c.id;
      var locked := if c.width.Some? && !c.resizable then c.width else None;
      var base := Built(c.id, header, c.sortable, c.width, locked, locked,
                        c.width.Some? && c.resizable, None, false, []);
      if c.colType == Some("actions") then
        base.(width := Some(if c.width.Some? && c.width.value != 0 then c.width.value else 120),
              gridType := Some("actions"),
              actionItems := ActionItems(c.actions))
      else if c.colType == Some("select") then base.(gridType := Some("singleSelect"))
      else if c.colType == Some("number") then base.(gridType := Some("number"))
      else if c.colType == Some("date") then base.(gridType := Some("date"), parsesDates := true)
      else if c.colType == Some("datetime") then base.(gridType := Some("dateTime"), parsesDates := true)
      else base
  }

  /** `mappedColumns` */
  function MapColumns(cs: seq<ColumnSpec>): seq<GridColumn> {
    seq(|cs|, i requires 0 <= i < |cs| => MapColumn(cs[i]))
  }

  /** The value a date column shows for a raw cell: the Date itself, a
      parsed Date, or null for a missing or unparseable value. */
  function DateCellValue(env: DateEnv, raw: Value): (r: Option<int>)
    ensures Nullish(raw) ==> r.None?
    ensures raw.DateObj? ==> r == Some(raw.time)
    ensures raw.Str? ==> r == env.parse(raw.s)
  {
    if Nullish(raw) then None else ToDate(env, raw)
  }

  // ---------------------------------------------------------------------------
  // Row filter

  /** The query the global search uses. */
  function SearchQuery(searchText: string): string {
    ToLower(Trim(searchText))
  }

  /** The text a cell is matched on: ISO form for a Date, `String(v)` else. */
  function CellText(env: DateEnv, v: Value): string {
    if v.DateObj? then env.iso(v.time) else ToJsString(env, v)
  }

  /** Column `col` of `row` contains the query. */
  predicate SearchHit(env: DateEnv, col: GridColumn, row: Row, q: string) {
    var f := GridField(col);
    Present(f) && !Nullish(Get(row, f.value))
    && Includes(ToLower(CellText(env, Get(row, f.value))), q)
  }

  predicate MatchesSearch(env: DateEnv, cols: seq<GridColumn>, q: string, row: Row) {
    q == "" || exists i :: 0 <= i < |cols| && SearchHit(env, cols[i], row, q)
  }

  /** A filter value that the filter loop skips. */
  predicate Inert(v: Value) {
    Nullish(v) || v == Str("")
    || (IsObject(v) && !Truthy(Prop(v, "from")) && !Truthy(Prop(v, "to")))
  }

  /** The first grid column whose field is `field`. */
  function FindColumn(cols: seq<GridColumn>, field: string): Option<GridColumn> {
    if |cols| == 0 then None
    else if GridField(cols[0]) == Some(field) then Some(cols[0])
    else FindColumn(cols[1..], field)
  }

  function FilterType(cols: seq<GridColumn>, field: string): string {
    var c := FindColumn(cols, field);
    if c.Some? then TypeOf(c.value) else "string"
  }

  /** `YYYY-MM-DD` */
  predicate IsIsoDay(s: string) {
    |s| == 10 && IsDigit(s[0]) && IsDigit(s[1]) && IsDigit(s[2]) && IsDigit(s[3])
    && s[4] == '-' && IsDigit(s[5]) && IsDigit(s[6])
    && s[7] == '-' && IsDigit(s[8]) && IsDigit(s[9])
  }

  /** The first ten characters of the ISO form of a time. */
  function IsoDay(env: DateEnv, t: int): string {
    var iso := env.iso(t);
    if |iso| <= 10 then iso else iso[..10]
  }

  /** `t < bound` where an invalid bound compares false. */
  predicate Before(t: int, bound: Option<int>) {
    bound.Some? && t < bound.value
  }

  predicate After(t: int, bound: Option<int>) {
    bound.Some? && t > bound.value
  }

  /** An active filter on a date column, for a non-null cell. */
  predicate DateFilterHolds(env: DateEnv, raw: Value, v: Value) {
    var cell := ToDate(env, raw);
    cell.Some? &&
    var t := cell.value;
    if v.Str? && Trim(v.s) != "" then
      if IsIsoDay(v.s) then IsoDay(env, t) == v.s
      else
        var target := env.parse(v.s);
        if target.Some? then t == target.value
        else Includes(ToLower(env.iso(t)), ToLower(v.s))
    else if IsObject(v) then
      !(Truthy(Prop(v, "from")) && Before(t, ToDate(env, Prop(v, "from"))))
      && !(Truthy(Prop(v, "to")) && After(t, ToDate(env, Prop(v, "to"))))
    else
      true
  }

  /** One `[field, v]` entry of the filter object holds for `row`. */
  predicate FilterHolds(env: DateEnv, cols: seq<GridColumn>, field: string, v: Value, row: Row)
    ensures Inert(v) ==> FilterHolds(env, cols, field, v, row)
    ensures !Inert(v) && Nullish(Get(row, field)) ==> !FilterHolds(env, cols, field, v, row)
  {
    Inert(v) ||
    (var raw := Get(row, field);
     !Nullish(raw) &&
     if IsDateType(FilterType(cols, field)) then DateFilterHolds(env, raw, v)
     else Includes(ToLower(CellText(env, raw)), ToLower(ToJsString(env, v))))
  }

  predicate AllFiltersHold(env: DateEnv, cols: seq<GridColumn>, filters: Filters, row: Row) {
    forall j :: 0 <= j < |filters| ==> FilterHolds(env, cols, filters[j].0, filters[j].1, row)
  }

  /** The row predicate of `filteredRows`. */
  predicate Keep(env: DateEnv, cols: seq<GridColumn>, q: string, filters: Filters, row: Row)
    ensures Keep(env, cols, q, filters, row) ==>
      forall j :: 0 <= j < |filters| && !Inert(filters[j].1) ==> !Nullish(Get(row, filters[j].0))
    ensures q == "" && (forall j :: 0 <= j < |filters| ==> Inert(filters[j].1)) ==>
      Keep(env, cols, q, filters, row)
  {
    MatchesSearch(env, cols, q, row) && AllFiltersHold(env, cols, filters, row)
  }

  function KeepFn(env: DateEnv, cols: seq<GridColumn>, q: string, filters: Filters): Row -> bool {
    row => Keep(env, cols, q, filters, row)
  }

  /** `filteredRows` for the query `q`. */
  function Filtered(env: DateEnv, cols: seq<GridColumn>, q: string, filters: Filters, rows: seq<Row>): (r: seq<Row>)
    ensures |r| <= |rows|
    ensures forall i :: 0 <= i < |r| ==> r[i] in rows && Keep(env, cols, q, filters, r[i])
    ensures forall i :: 0 <= i < |rows| && Keep(env, cols, q, filters, rows[i]) ==> rows[i] in r
    ensures forall row ::
              multiset(r)[row] == if Keep(env, cols, q, filters, row) then multiset(rows)[row] else 0
  {
    var keep := KeepFn(env, cols, q, filters);
    var r := Seqs.Filter(rows, keep);
    Seqs.FilterIsSubsequence(rows, keep);
    forall row
      ensures row in r <==> row in rows && Keep(env, cols, q, filters, row)
      ensures multiset(r)[row] == if Keep(env, cols, q, filters, row) then multiset(rows)[row] else 0
    {
      assert keep(row) == Keep(env, cols, q, filters, row);
      Seqs.FilterMembership(rows, keep, row);
      Seqs.FilterCount(rows, keep, row);
    }
    r
  }

  /** The predicate passed to `filter`: the global search, then the loop over
      the filter entries that stops at the first one failing. */
  method RowMatches(env: DateEnv, cols: seq<GridColumn>, q: string, filters: Filters, row: Row)
    returns (keep: bool)
    ensures keep == Keep(env, cols, q, filters, row)
  {
    if q != "" {
      var any := exists i :: 0 <= i < |cols| && SearchHit(env, cols[i], row, q);
      if !any {
        return false;
      }
    }
    for i := 0 to |filters|
      invariant forall j :: 0 <= j < i ==> FilterHolds(env, cols, filters[j].0, filters[j].1, row)
    {
      var (field, v) := filters[i];
      if Inert(v) {
        continue;
      }
      if !FilterHolds(env, cols, field, v, row) {
        return false;
      }
    }
    return true;
  }

  /** `filteredRows` */
  method FilterRows(env: DateEnv, cols: seq<GridColumn>, searchText: string, filters: Filters, rows: seq<Row>)
    returns (r: seq<Row>)
    ensures r == Filtered(env, cols, SearchQuery(searchText), filters, rows)
  {
    var q := SearchQuery(searchText);
    r := [];
    for i := 0 to |rows|
      invariant r == Filtered(env, cols, q, filters, rows[..i])
    {
      var keep := RowMatches(env, cols, q, filters, rows[i]);
      Seqs.FilterSnoc(rows, KeepFn(env, cols, q, filters), i);
      if keep {
        r := r + [rows[i]];
      }
    }
    assert rows[..|rows|] == rows;
  }

  /** The filtered rows are an order-preserving subsequence of the rows, and
      filtering them again changes nothing. */
  lemma FilteredIsStableSubsequence(env: DateEnv, cols: seq<GridColumn>, q: string, filters: Filters, rows: seq<Row>)
    ensures Seqs.IsSubsequence(Filtered(env, cols, q, filters, rows), rows)
    ensures |Filtered(env, cols, q, filters, rows)| <= |rows|
    ensures Filtered(env, cols, q, filters, Filtered(env, cols, q, filters, rows)) == Filtered(env, cols, q, filters, rows)
  {
    Seqs.FilterIsSubsequence(rows, KeepFn(env, cols, q, filters));
    Seqs.FilterIdempotent(rows, KeepFn(env, cols, q, filters));
  }

  /** A row survives iff it is one of the rows, some column contains the
      query (when there is one), and every filter entry holds. */
  lemma FilteredMembership(env: DateEnv, cols: seq<GridColumn>, q: string, filters: Filters, rows: seq<Row>, row: Row)
    ensures row in Filtered(env, cols, q, filters, rows) <==>
      && row in rows
      && (q == "" || exists i :: 0 <= i < |cols| && SearchHit(env, cols[i], row, q))
      && (forall j :: 0 <= j < |filters| ==> FilterHolds(env, cols, filters[j].0, filters[j].1, row))
  {
    Seqs.FilterMembership(rows, KeepFn(env, cols, q, filters), row);
  }

  /** A blank search with only inert filter values keeps every row. */
  lemma BlankSearchKeepsAll(env: DateEnv, cols: seq<GridColumn>, searchText: string, filters: Filters, rows: seq<Row>)
    requires Trim(searchText) == ""
    requires forall j :: 0 <= j < |filters| ==> Inert(filters[j].1)
    ensures Filtered(env, cols, SearchQuery(searchText), filters, rows) == rows
  {
    assert SearchQuery(searchText) == "";
    Seqs.FilterKeepsAll(rows, KeepFn(env, cols, "", filters));
  }

  /** The global search ignores the case the query is typed in. */
  lemma SearchIgnoresCase(env: DateEnv, cols: seq<GridColumn>, searchText: string, filters: Filters, rows: seq<Row>)
    ensures Filtered(env, cols, SearchQuery(ToUpper(searchText)), filters, rows)
         == Filtered(env, cols, SearchQuery(searchText), filters, rows)
  {
    TrimOfUpper(searchText);
    LowerOfUpper(Trim(searchText));
  }

  /** A text filter ignores the case its value is typed in. */
  lemma TextFilterIgnoresCase(env: DateEnv, cols: seq<GridColumn>, field: string, s: string, row: Row)
    requires !IsDateType(FilterType(cols, field))
    ensures FilterHolds(env, cols, field, Str(ToUpper(s)), row) == FilterHolds(env, cols, field, Str(s), row)
  {
    LowerOfUpper(s);
    assert Inert(Str(ToUpper(s))) == Inert(Str(s)) by {
      assert |ToUpper(s)| == |s|;
    }
  }

  /** Adding an inert filter entry changes nothing; adding an active one for
      a field that no row has empties the result. */
  lemma AddedFilterEntry(env: DateEnv, cols: seq<GridColumn>, q: string, filters: Filters, field: string, v: Value, rows: seq<Row>)
    ensures Inert(v) ==>
      Filtered(env, cols, q, filters + [(field, v)], rows) == Filtered(env, cols, q, filters, rows)
    ensures !Inert(v) && (forall i :: 0 <= i < |rows| ==> Nullish(Get(rows[i], field))) ==>
      Filtered(env, cols, q, filters + [(field, v)], rows) == []
  {
    var more := filters + [(field, v)];
    if Inert(v) {
      forall i | 0 <= i < |rows|
        ensures KeepFn(env, cols, q, more)(rows[i]) == KeepFn(env, cols, q, filters)(rows[i])
      {
        assert forall j :: 0 <= j < |filters| ==> more[j] == filters[j];
      }
      Seqs.FilterExtensional(rows, KeepFn(env, cols, q, more), KeepFn(env, cols, q, filters));
    } else if forall i :: 0 <= i < |rows| ==> Nullish(Get(rows[i], field)) {
      forall i | 0 <= i < |rows| ensures !KeepFn(env, cols, q, more)(rows[i]) {
        assert !FilterHolds(env, cols, more[|filters|].0, more[|filters|].1, rows[i]);
      }
      Seqs.FilterDropsAll(rows, KeepFn(env, cols, q, more));
    }
  }

  /** The order of the filter entries does not matter. */
  lemma FilterOrderIrrelevant(env: DateEnv, cols: seq<GridColumn>, q: string, f1: Filters, f2: Filters, rows: seq<Row>)
    requires forall e :: e in f1 <==> e in f2
    ensures Filtered(env, cols, q, f1, rows) == Filtered(env, cols, q, f2, rows)
  {
    forall i | 0 <= i < |rows|
      ensures KeepFn(env, cols, q, f1)(rows[i]) == KeepFn(env, cols, q, f2)(rows[i])
    {
      var row := rows[i];
      if AllFiltersHold(env, cols, f1, row) {
        forall j | 0 <= j < |f2| ensures FilterHolds(env, cols, f2[j].0, f2[j].1, row) {
          assert f2[j] in f1;
        }
      }
      if AllFiltersHold(env, cols, f2, row) {
        forall j | 0 <= j < |f1| ensures FilterHolds(env, cols, f1[j].0, f1[j].1, row) {
          assert f1[j] in f2;
        }
      }
    }
    Seqs.FilterExtensional(rows, KeepFn(env, cols, q, f1), KeepFn(env, cols, q, f2));
  }

  /** A `{from, to}` filter on a date column keeps exactly the rows whose
      date lies in the closed interval; a missing or unparseable cell date
      drops the row. */
  lemma DateRangeInclusive(env: DateEnv, cols: seq<GridColumn>, field: string, from: string, to: string, row: Row)
    requires IsDateType(FilterType(cols, field))
    requires from != "" && to != "" && env.parse(from).Some? && env.parse(to).Some?
    ensures var raw := Get(row, field);
      FilterHolds(env, cols, field, Obj(map["from" := Str(from), "to" := Str(to)]), row) <==>
        && !Nullish(raw)
        && ToDate(env, raw).Some?
        && env.parse(from).value <= ToDate(env, raw).value <= env.parse(to).value
  {
    var v := Obj(map["from" := Str(from), "to" := Str(to)]);
    assert Prop(v, "from") == Str(from) && Prop(v, "to") == Str(to);
    assert !Inert(v);
  }

  /** A `YYYY-MM-DD` filter on a date column compares the date portion of
      the cell's ISO form. */
  lemma IsoDayFilter(env: DateEnv, cols: seq<GridColumn>, field: string, s: string, row: Row)
    requires IsDateType(FilterType(cols, field)) && IsIsoDay(s)
    ensures var raw := Get(row, field);
      FilterHolds(env, cols, field, Str(s), row) <==>
        !Nullish(raw) && ToDate(env, raw).Some? && IsoDay(env, ToDate(env, raw).value) == s
  {
    assert !IsSpace(s[0]) && !IsSpace(s[9]);
    TrimOfTrimmed(s);
  }

  // ---------------------------------------------------------------------------
  // Page sizes and pagination

  const MaxPageSize: int := 100

  function Min(a: int, b: int): int {
    if a < b then a else b
  }

  /** `Math.min(Number(p) || 0, 100)` */
  function PageSizeOf(p: Value): int {
    var n := ToNumber(p);
    Min(if n.Some? then n.value else 0, MaxPageSize)
  }

  predicate StrictlyIncreasing(s: seq<int>) {
    forall i, j :: 0 <= i < j < |s| ==> s[i] < s[j]
  }

  /** Adds `x` to a strictly increasing sequence unless it is present. */
  function InsertSorted(s: seq<int>, x: int): (r: seq<int>)
    requires StrictlyIncreasing(s)
    ensures StrictlyIncreasing(r)
    ensures forall y :: y in r <==> y in s || y == x
    ensures |r| <= |s| + 1
  {
    if |s| == 0 then [x]
    else if x < s[0] then [x] + s
    else if x == s[0] then s
    else
      var t := InsertSorted(s[1..], x);
      PrependIncreasing(s[0], t);
      [s[0]] + t
  }

  /** A value below every element may be put in front. */
  lemma PrependIncreasing(a: int, t: seq<int>)
    requires StrictlyIncreasing(t)
    requires forall y :: y in t ==> a < y
    ensures StrictlyIncreasing([a] + t)
  {
    forall i, j | 0 <= i < j < |[a] + t|
      ensures ([a] + t)[i] < ([a] + t)[j]
    {
      if i == 0 {
        assert ([a] + t)[j] == t[j - 1] && t[j - 1] in t;
      } else {
        assert ([a] + t)[i] == t[i - 1] && ([a] + t)[j] == t[j - 1];
      }
    }
  }

  /** `safePageSizeOptions`: every option clamped to at most 100 (a
      non-numeric one becomes 0), without duplicates, in ascending order. */
  function SafePageSizeOptions(options: seq<Value>): (r: seq<int>)
    ensures StrictlyIncreasing(r)
    ensures forall i :: 0 <= i < |options| ==> PageSizeOf(options[i]) in r
    ensures forall x :: x in r ==> exists i :: 0 <= i < |options| && PageSizeOf(options[i]) == x
    ensures forall x :: x in r ==> x <= MaxPageSize
    ensures |r| <= |options|
  {
    if |options| == 0 then []
    else InsertSorted(SafePageSizeOptions(options[..|options| - 1]), PageSizeOf(options[|options| - 1]))
  }

  /** The pagination model as the page may pass it. */
  datatype PaginationProp = PaginationProp(page: Option<int>, pageSize: Option<int>)

  datatype PaginationModel = PaginationModel(page: int, pageSize: int)

  /** The initial `localPaginationModel`. */
  function InitialPagination(prop: Option<PaginationProp>, options: seq<Value>): (r: PaginationModel)
    ensures r.pageSize <= MaxPageSize
    ensures prop.None? ==> r.page == 0 && r.pageSize != 0
    ensures prop.Some? && prop.value.page.Some? ==> r.page == prop.value.page.value
    ensures prop.Some? && prop.value.page.None? ==> r.page == 0
    ensures prop.Some? && prop.value.pageSize.Some? ==>
      r.pageSize == Min(prop.value.pageSize.value, MaxPageSize)
  {
    var safe := SafePageSizeOptions(options);
    if prop.Some? then
      var p := prop.value;
      var initial := if p.pageSize.Some? then p.pageSize.value else if |safe| > 0 then safe[0] else 10;
      PaginationModel(if p.page.Some? then p.page.value else 0, Min(initial, MaxPageSize))
    else
      PaginationModel(0, if |safe| > 0 && safe[0] != 0 then safe[0] else 10)
  }

  /** `visibleRowsCount` */
  function VisibleCount(count: nat, page: int, pageSize: int): (r: int)
    ensures count == 0 || page * pageSize >= count ==> r == 0
    ensures r == 0 || r <= pageSize
    ensures page >= 0 ==> r <= count
    ensures page >= 0 && pageSize >= 0 ==> r >= 0
  {
    var start := page * pageSize;
    if count == 0 then 0
    else if start >= count then 0
    else Min(pageSize, count - start)
  }

  /** The rows of page `page`: the slice starting at `page * pageSize`. */
  function PageSlice<T>(rows: seq<T>, page: nat, pageSize: nat): seq<T> {
    var start := page * pageSize;
    if start >= |rows| then [] else rows[start..Min(start + pageSize, |rows|)]
  }

  /** The visible count is the length of the page the grid shows. */
  lemma VisibleCountIsPageLength<T>(rows: seq<T>, page: nat, pageSize: nat)
    ensures VisibleCount(|rows|, page, pageSize) == |PageSlice(rows, page, pageSize)|
  {
  }

  /** The pages from `page` on, concatenated. */
  function PagesFrom<T>(rows: seq<T>, pageSize: nat, page: nat): seq<T>
    requires pageSize > 0
    decreases |rows| - page * pageSize
  {
    if page * pageSize >= |rows| then []
    else
      assert (page + 1) * pageSize == page * pageSize + pageSize;
      PageSlice(rows, page, pageSize) + PagesFrom(rows, pageSize, page + 1)
  }

  /** Consecutive pages cover the rows without gap or overlap. */
  lemma {:induction false} PagesPartition<T>(rows: seq<T>, pageSize: nat, page: nat)
    requires pageSize > 0 && page * pageSize <= |rows|
    ensures PagesFrom(rows, pageSize, page) == rows[page * pageSize..]
    decreases |rows| - page * pageSize
  {
    var start := page * pageSize;
    assert (page + 1) * pageSize == start + pageSize;
    if start < |rows| {
      if start + pageSize <= |rows| {
        PagesPartition(rows, pageSize, page + 1);
        assert rows[start..] == rows[start..start + pageSize] + rows[start + pageSize..];
      } else {
        assert PagesFrom(rows, pageSize, page + 1) == [];
      }
    }
  }

  // ---------------------------------------------------------------------------
  // Filter object updates

  predicate DistinctKeys(fs: Filters) {
    forall i, j :: 0 <= i < j < |fs| ==> fs[i].0 != fs[j].0
  }

  /** Where key `k` sits in the filter object, or its length when absent. */
  function KeyIndex(fs: Filters, k: string): (i: nat)
    ensures i <= |fs|
    ensures i < |fs| ==> fs[i].0 == k
    ensures forall j :: 0 <= j < i ==> fs[j].0 != k
  {
    if |fs| == 0 then 0 else if fs[0].0 == k then 0 else 1 + KeyIndex(fs[1..], k)
  }

  /** `filters[k]` */
  function Lookup(fs: Filters, k: string): Value {
    var i := KeyIndex(fs, k);
    if i < |fs| then fs[i].1 else Undefined
  }

  /** `{ ...fs, [k]: v }`: a present key keeps its place, a new key goes last. */
  function SetFilter(fs: Filters, k: string, v: Value): (r: Filters)
    requires DistinctKeys(fs)
    ensures DistinctKeys(r)
    ensures Lookup(r, k) == v
    ensures forall k' :: k' != k ==> Lookup(r, k') == Lookup(fs, k')
    ensures |r| == |fs| || (|r| == |fs| + 1 && r[..|fs|] == fs)
    ensures forall i :: 0 <= i < |fs| ==> r[i].0 == fs[i].0
  {
    var i := KeyIndex(fs, k);
    var r := if i < |fs| then fs[i := (k, v)] else fs + [(k, v)];
    assert r[i].0 == k;
    assert KeyIndex(r, k) == i;
    LookupOtherKeys(fs, r, k);
    r
  }

  /** Rewriting or appending entries for `k` leaves every other key's value. */
  lemma LookupOtherKeys(fs: Filters, r: Filters, k: string)
    requires |fs| <= |r|
    requires forall j :: 0 <= j < |fs| ==> r[j].0 == fs[j].0 && (fs[j].0 != k ==> r[j] == fs[j])
    requires forall j :: |fs| <= j < |r| ==> r[j].0 == k
    ensures forall k' :: k' != k ==> Lookup(r, k') == Lookup(fs, k')
  {
    forall k' | k' != k
      ensures Lookup(r, k') == Lookup(fs, k')
    {
      var a, b := KeyIndex(fs, k'), KeyIndex(r, k');
      if a < |fs| {
        assert r[a].0 == k';
        assert b == a;
      }
    }
  }

  // ---------------------------------------------------------------------------
  // Component state

  class DataTable {
    const env: DateEnv
    const rows: seq<Row>
    const columns: seq<GridColumn>
    const pageSizeOptions: seq<int>
    var searchText: string
    var columnFilters: Filters
    var pagination: PaginationModel
    var selection: seq<Value>

    ghost predicate Valid()
      reads this
    {
      pagination.pageSize <= MaxPageSize && DistinctKeys(columnFilters)
    }

    /** Mounting the component with its props. */
    constructor (env: DateEnv, rows: seq<Row>, columns: seq<ColumnSpec>,
                 pageSizeOptions: seq<Value>, paginationModel: Option<PaginationProp>)
      ensures Valid()
      ensures this.env == env && this.rows == rows && this.columns == MapColumns(columns)
      ensures this.pageSizeOptions == SafePageSizeOptions(pageSizeOptions)
      ensures searchText == "" && columnFilters == [] && selection == []
      ensures pagination == InitialPagination(paginationModel, pageSizeOptions)
    {
      this.env := env;
      this.rows := rows;
      this.columns := MapColumns(columns);
      this.pageSizeOptions := SafePageSizeOptions(pageSizeOptions);
      searchText := "";
      columnFilters := [];
      selection := [];
      pagination := InitialPagination(paginationModel, pageSizeOptions);
    }

    /** Typing in the search box, or clearing it. */
    method SetSearchText(text: string)
      requires Valid()
      modifies this
      ensures Valid()
      ensures searchText == text
      ensures columnFilters == old(columnFilters) && pagination == old(pagination) && selection == old(selection)
    {
      searchText := text;
    }

    /** Typing in the filter input for `name`: only that key changes. */
    method SetColumnFilter(name: string, v: Value)
      requires Valid()
      modifies this
      ensures Valid()
      ensures columnFilters == SetFilter(old(columnFilters), name, v)
      ensures searchText == old(searchText) && pagination == old(pagination) && selection == old(selection)
    {
      columnFilters := SetFilter(columnFilters, name, v);
    }

    /** The Clear button: no filters and no search text. */
    method ClearSearch()
      requires Valid()
      modifies this
      ensures Valid()
      ensures columnFilters == [] && searchText == ""
      ensures pagination == old(pagination) && selection == old(selection)
    {
      columnFilters := [];
      searchText := "";
    }

    /** The grid reports a new page or page size; the size is clamped. */
    method OnPaginationModelChange(page: int, pageSize: int)
      requires Valid()
      modifies this
      ensures Valid()
      ensures pagination == PaginationModel(page, Min(pageSize, MaxPageSize))
      ensures searchText == old(searchText) && columnFilters == old(columnFilters) && selection == old(selection)
    {
      pagination := PaginationModel(page, Min(pageSize, MaxPageSize));
    }

    /** The grid reports a new selection. */
    method OnSelectionModelChange(ids: seq<Value>)
      requires Valid()
      modifies this
      ensures Valid()
      ensures selection == ids
      ensures searchText == old(searchText) && columnFilters == old(columnFilters) && pagination == old(pagination)
    {
      selection := ids;
    }

    /** The bulk-delete button: enabled only with a non-empty selection,
        which it hands over. */
    method BulkDelete() returns (request: Option<seq<Value>>)
      ensures request.Some? <==> |selection| > 0
      ensures request.Some? ==> request.value == selection
    {
      if |selection| > 0 {
        request := Some(selection);
      } else {
        request := None;
      }
    }

    /** `filteredRows` for the current state. */
    method FilteredRows() returns (r: seq<Row>)
      ensures r == Filtered(env, columns, SearchQuery(searchText), columnFilters, rows)
    {
      r := FilterRows(env, columns, searchText, columnFilters, rows);
    }

    /** `visibleRowsCount` for the current state. */
    method VisibleRowsCount() returns (n: int)
      requires Valid()
      ensures n == VisibleCount(|Filtered(env, columns, SearchQuery(searchText), columnFilters, rows)|,
                                pagination.page, pagination.pageSize)
      ensures pagination.page >= 0 ==> n <= |rows|
    {
      var r := FilteredRows();
      FilteredIsStableSubsequence(env, columns, SearchQuery(searchText), columnFilters, rows);
      n := VisibleCount(|r|, pagination.page, pagination.pageSize);
    }
  }
}
