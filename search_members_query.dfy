/** `PrismaSearchMembersQuery.execute`: it normalises the page and the page
    size, builds one filter, and asks the member table for one page of rows
    ordered by full name and for the number of rows under the same filter.
    The table's `findMany` and `count` are parameters. */
module SearchMembersQuery {
  import opened Wrappers
  import opened Text
  import opened Js
  import opened Errors
  import opened Dates
  import opened Mappers
  import opened MemberRecordMapper

  const DEFAULT_PAGE := 1
  const DEFAULT_PAGE_SIZE := 10
  const MAX_PAGE_SIZE := 100

  /** `SearchMembersQueryInput`; a page or page size that is not a number
      (undefined at run time) is `None`. */
  datatype SearchMembersQueryInput = SearchMembersQueryInput(
    page: Option<JsNumber>,
    pageSize: Option<JsNumber>,
    name: Option<string>,
    profile: Option<string>,
    visibility: Option<string>)

  /** The `where` object: a case-insensitive `contains` on the full name, an
      `equals` on the profile, and the status, each only when set. */
  datatype MemberWhere = MemberWhere(fullNameContains: Option<string>, profileEquals: Option<string>,
                                     status: Option<string>)

  /** The `findMany` arguments; the order is always by full name,
      ascending. */
  datatype FindManyArgs = FindManyArgs(where: MemberWhere, skip: JsNumber, take: int)

  datatype SearchMembersQueryResult = SearchMembersQueryResult(items: seq<MemberView>, total: int, page: JsNumber,
                                                               pageSize: int)

  predicate IsWhole(x: real)
  {
    x == x.Floor as real
  }

  /** `normalizePage`: 1 for a missing number, NaN or anything below 1,
      otherwise `Math.floor`, which keeps Infinity. */
  function NormalizePage(page: Option<JsNumber>): (r: JsNumber)
    ensures r == PosInf <==> page == Some(PosInf)
    ensures (r.Finite? && r.r >= 1.0 && IsWhole(r.r)) || r == PosInf
    ensures page.Some? && page.value.Finite? && page.value.r >= 1.0 ==>
      r == Finite(page.value.r.Floor as real) && page.value.r - 1.0 < r.r <= page.value.r
    ensures !(page.Some? && (page.value.PosInf? || (page.value.Finite? && page.value.r >= 1.0))) ==>
      r == Finite(DEFAULT_PAGE as real)
  {
    if page.None? || page.value.NaN? || page.value.NegInf? || (page.value.Finite? && page.value.r < 1.0) then
      Finite(DEFAULT_PAGE as real)
    else if page.value.PosInf? then PosInf
    else Finite(page.value.r.Floor as real)
  }

  /** `normalizePageSize`: 10 for a missing number, NaN or anything below
      1, otherwise `Math.floor` capped at 100. */
  function NormalizePageSize(pageSize: Option<JsNumber>): (r: int)
    ensures 1 <= r <= MAX_PAGE_SIZE
    ensures pageSize.Some? && pageSize.value.Finite? && 1.0 <= pageSize.value.r ==>
      r == (if pageSize.value.r.Floor > MAX_PAGE_SIZE then MAX_PAGE_SIZE else pageSize.value.r.Floor)
    ensures pageSize == Some(PosInf) ==> r == MAX_PAGE_SIZE
    ensures !(pageSize.Some? && (pageSize.value.PosInf? || (pageSize.value.Finite? && pageSize.value.r >= 1.0))) ==>
      r == DEFAULT_PAGE_SIZE
  {
    if pageSize.None? || pageSize.value.NaN? || pageSize.value.NegInf?
       || (pageSize.value.Finite? && pageSize.value.r < 1.0) then DEFAULT_PAGE_SIZE
    else if pageSize.value.PosInf? || pageSize.value.r.Floor > MAX_PAGE_SIZE then MAX_PAGE_SIZE
    else pageSize.value.r.Floor
  }

  /** `(page - 1) * pageSize`. */
  function SkipOf(page: JsNumber, pageSize: int): (r: JsNumber)
    requires page.Finite? || page == PosInf
    requires pageSize >= 1
    ensures page.Finite? ==> r == Finite((page.r - 1.0) * pageSize as real)
    ensures page == PosInf ==> r == PosInf
  {
    if page == PosInf then PosInf else Finite((page.r - 1.0) * pageSize as real)
  }

  /** A trimmed text that is not empty, as `if (text)` lets through. */
  function NonEmptyTrimmed(text: Option<string>): (r: Option<string>)
    ensures r.Some? <==> text.Some? && Trim(text.value) != []
    ensures r.Some? ==> r.value == Trim(text.value)
  {
    if text.Some? && Trim(text.value) != [] then Some(Trim(text.value)) else None
  }

  /** The filter `buildWhere` builds. */
  function WhereOf(input: SearchMembersQueryInput): (w: MemberWhere)
    ensures w.fullNameContains == NonEmptyTrimmed(input.name)
    ensures w.profileEquals == NonEmptyTrimmed(input.profile)
    ensures input.visibility.None? ==> w.status == Some("active")
    ensures input.visibility.Some? ==>
      w.status == (if input.visibility.value in {"active", "archived"} then input.visibility else None)
  {
    var visibility := if input.visibility.Some? then input.visibility.value else "active";
    MemberWhere(NonEmptyTrimmed(input.name), NonEmptyTrimmed(input.profile),
                if visibility == "active" || visibility == "archived" then Some(visibility) else None)
  }

  /** `buildWhere`: it starts from an empty filter and adds each part the
      input asks for. */
  method BuildWhere(input: SearchMembersQueryInput) returns (where: MemberWhere)
    ensures where == WhereOf(input)
  {
    where := MemberWhere(None, None, None);
    if input.name.Some? {
      var name := Trim(input.name.value);
      if name != [] {
        where := where.(fullNameContains := Some(name));
      }
    }
    if input.profile.Some? {
      var profile := Trim(input.profile.value);
      if profile != [] {
        where := where.(profileEquals := Some(profile));
      }
    }
    var visibility := if input.visibility.Some? then input.visibility.value else "active";
    if visibility == "active" || visibility == "archived" {
      where := where.(status := Some(visibility));
    }
  }

  /** `u` occurs in `t` at position `i`. */
  predicate OccursAt(t: string, u: string, i: int)
  {
    0 <= i && i + |u| <= |t| && t[i..i + |u|] == u
  }

  /** A case-insensitive `contains` (ASCII letter case only). */
  predicate ContainsInsensitive(t: string, u: string)
  {
    exists i | 0 <= i <= |t| :: OccursAt(ToLower(t), ToLower(u), i)
  }

  /** What the filter means for a row. */
  predicate Matches(row: MemberRow, where: MemberWhere)
  {
    && (where.fullNameContains.Some? ==> ContainsInsensitive(row.fullName, where.fullNameContains.value))
    && (where.profileEquals.Some? ==> row.profile == where.profileEquals)
    && (where.status.Some? ==> row.status == where.status.value)
  }

  /** The visibility decides the status filter: by default only active
      members, `archived` only archived ones, and `all` (or any other value)
      every status. A blank name or profile filters nothing. */
  lemma VisibilityFilters(input: SearchMembersQueryInput, row: MemberRow)
    ensures input.visibility.None? || input.visibility == Some("active") ==>
      (Matches(row, WhereOf(input)) ==> row.status == "active")
    ensures input.visibility == Some("archived") ==> (Matches(row, WhereOf(input)) ==> row.status == "archived")
    ensures input.visibility.Some? && input.visibility.value !in {"active", "archived"} ==>
      Matches(row, WhereOf(input)) == Matches(row.(status := "archived"), WhereOf(input))
    ensures NonEmptyTrimmed(input.name).None? && NonEmptyTrimmed(input.profile).None? ==>
      (Matches(row, WhereOf(input)) <==> (WhereOf(input).status.Some? ==> row.status == WhereOf(input).status.value))
  {
  }

  /** `xs.map(f)` for an `f` that may throw: it throws the first error. */
  function MapAll<T, U>(f: T -> Result<U, Exception>, xs: seq<T>): (r: Result<seq<U>, Exception>)
    ensures r.Success? <==> forall i :: 0 <= i < |xs| ==> f(xs[i]).Success?
    ensures r.Success? ==> |r.value| == |xs| && forall i :: 0 <= i < |xs| ==> r.value[i] == f(xs[i]).value
    ensures r.Failure? ==> exists i :: 0 <= i < |xs| && f(xs[i]) == Failure(r.error)
    decreases xs
  {
    if xs == [] then Success([])
    else
      var head := f(xs[0]);
      var tail := MapAll(f, xs[1..]);
      assert forall i :: 1 <= i < |xs| ==> xs[i] == xs[1..][i - 1];
      if head.Failure? then Failure(head.error)
      else if tail.Failure? then Failure(tail.error)
      else Success([head.value] + tail.value)
  }

  /** `records.map(mapPrismaMemberToView)`: it throws when the dates of a
      row do not render. */
  function MapRows(rows: seq<MemberRow>): (r: Result<seq<MemberView>, Exception>)
    ensures r.Success? <==> forall i :: 0 <= i < |rows| ==> RowDatesRender(rows[i])
    ensures r.Success? ==> |r.value| == |rows| && forall i :: 0 <= i < |rows| ==> r.value[i] == MapRowToView(rows[i]).value
    ensures r.Failure? ==> r.error == InvalidTimeValue()
  {
    MapAll(MapRowToView, rows)
  }

  /** The `findMany` call `execute` makes. */
  function ArgsOf(input: SearchMembersQueryInput): (a: FindManyArgs)
    ensures a.where == WhereOf(input)
    ensures a.take == NormalizePageSize(input.pageSize)
    ensures a.skip == SkipOf(NormalizePage(input.page), NormalizePageSize(input.pageSize))
  {
    var pageSize := NormalizePageSize(input.pageSize);
    FindManyArgs(WhereOf(input), SkipOf(NormalizePage(input.page), pageSize), pageSize)
  }

  /** What `execute` resolves to: the page of rows mapped to views, the
      count under the same filter, and the normalised page and page size. */
  function SearchResultOf(input: SearchMembersQueryInput, findMany: FindManyArgs -> seq<MemberRow>,
                          count: MemberWhere -> int): (r: Result<SearchMembersQueryResult, Exception>)
    ensures r.Success? <==> MapRows(findMany(ArgsOf(input))).Success?
    ensures r.Success? ==>
      && r.value.items == MapRows(findMany(ArgsOf(input))).value
      && r.value.total == count(ArgsOf(input).where)
      && r.value.page == NormalizePage(input.page)
      && r.value.pageSize == ArgsOf(input).take
  {
    var items := MapRows(findMany(ArgsOf(input)));
    if items.Failure? then Failure(items.error)
    else Success(SearchMembersQueryResult(items.value, count(WhereOf(input)), NormalizePage(input.page),
                                          NormalizePageSize(input.pageSize)))
  }

  /** `execute`. */
  method Execute(input: SearchMembersQueryInput, findMany: FindManyArgs -> seq<MemberRow>, count: MemberWhere -> int)
    returns (r: Result<SearchMembersQueryResult, Exception>)
    ensures r == SearchResultOf(input, findMany, count)
  {
    var page := NormalizePage(input.page);
    var pageSize := NormalizePageSize(input.pageSize);
    var where := BuildWhere(input);
    var records := findMany(FindManyArgs(where, SkipOf(page, pageSize), pageSize));
    var total := count(where);
    var items := MapRows(records);
    if items.Failure? {
      return Failure(items.error);
    }
    return Success(SearchMembersQueryResult(items.value, total, page, pageSize));
  }

  // A reference table: the rows in full-name order, filtered, and a window
  // of them taken.

  /** The rows of `table` the filter matches, in table order. */
  function Filter(table: seq<MemberRow>, where: MemberWhere): (r: seq<MemberRow>)
    ensures |r| <= |table|
    ensures forall i :: 0 <= i < |r| ==> Matches(r[i], where)
    decreases table
  {
    if table == [] then []
    else if Matches(table[0], where) then [table[0]] + Filter(table[1..], where)
    else Filter(table[1..], where)
  }

  lemma {:induction false} FilterMembership(table: seq<MemberRow>, where: MemberWhere, row: MemberRow)
    ensures row in Filter(table, where) <==> row in table && Matches(row, where)
    decreases table
  {
    if table != [] {
      FilterMembership(table[1..], where, row);
      assert table == [table[0]] + table[1..];
    }
  }

  /** `skip` then `take` over the matching rows. */
  function Window(rows: seq<MemberRow>, skip: int, take: int): (r: seq<MemberRow>)
    requires 0 <= skip && 0 <= take
    ensures |r| <= take
  {
    if skip >= |rows| then [] else if skip + take >= |rows| then rows[skip..] else rows[skip..skip + take]
  }

  /** `findMany` over the reference table; an infinite skip leaves nothing. */
  function TableFindMany(table: seq<MemberRow>, args: FindManyArgs): seq<MemberRow>
  {
    if args.skip.Finite? && 0.0 <= args.skip.r && IsWhole(args.skip.r) && args.take >= 0 then
      Window(Filter(table, args.where), args.skip.r.Floor, args.take)
    else []
  }

  /** A whole page number gives a whole, non-negative skip. */
  lemma WholeSkip(page: JsNumber, size: int)
    requires page.Finite? && page.r >= 1.0 && IsWhole(page.r) && size >= 1
    ensures var skip := SkipOf(page, size);
      skip.Finite? && 0.0 <= skip.r && IsWhole(skip.r) && skip.r.Floor == (page.r.Floor - 1) * size
  {
    var k := page.r.Floor;
    var n := (k - 1) * size;
    assert n >= 0;
    assert (k - 1) as real == page.r - 1.0;
    assert n as real == (k - 1) as real * size as real;
    assert SkipOf(page, size).r == n as real;
    assert (n as real).Floor == n;
  }

  /** For a finite page, `execute` asks the reference table for the
      matching rows from position `(page - 1) * pageSize` on. */
  lemma TableFindManyIsWindow(table: seq<MemberRow>, input: SearchMembersQueryInput)
    requires NormalizePage(input.page).Finite?
    ensures var page := NormalizePage(input.page).r.Floor;
      var size := NormalizePageSize(input.pageSize);
      && page >= 1
      && TableFindMany(table, ArgsOf(input)) == Window(Filter(table, WhereOf(input)), (page - 1) * size, size)
  {
    WholeSkip(NormalizePage(input.page), NormalizePageSize(input.pageSize));
  }

  /** Over the reference table, a search for a finite page returns at most
      `pageSize` views, which are those of the matching rows from position
      `(page - 1) * pageSize` on, and counts every matching row. */
  lemma TableSearchIsPage(table: seq<MemberRow>, input: SearchMembersQueryInput)
    requires NormalizePage(input.page).Finite?
    ensures var r := SearchResultOf(input, args => TableFindMany(table, args), w => |Filter(table, w)|);
      var page := NormalizePage(input.page).r.Floor;
      var size := NormalizePageSize(input.pageSize);
      var rows := Window(Filter(table, WhereOf(input)), (page - 1) * size, size);
      && (r.Success? <==> MapRows(rows).Success?)
      && (r.Success? ==> |r.value.items| <= size && r.value.items == MapRows(rows).value
                         && r.value.total == |Filter(table, WhereOf(input))|)
  {
    TableFindManyIsWindow(table, input);
  }
}
