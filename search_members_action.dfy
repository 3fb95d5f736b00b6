/** `searchMembersAction`: it turns whatever the page sends (numbers or
    strings from the URL) into a query input and runs the search query. */
module SearchMembersAction {
  import opened Wrappers
  import opened Text
  import opened Js
  import opened Errors
  import opened Validators
  import opened MemberRecordMapper
  import opened SearchMembersQuery

  const INVALID_VISIBILITY := "Invalid visibility filter."
  const VISIBILITIES: set<string> := {"active", "archived", "all"}

  /** `SearchMembersActionInput`; a property left out is `Undef`. */
  datatype SearchMembersActionInput = SearchMembersActionInput(page: JsValue, pageSize: JsValue, name: JsValue,
                                                               profile: JsValue, visibility: JsValue)

  /** The default argument `{}`. */
  const EMPTY_INPUT := SearchMembersActionInput(Undef, Undef, Undef, Undef, Undef)

  /** `normalizePositiveInteger`: a finite number of at least 1 is floored, a
      string goes through `Number.parseInt` and is kept when it is at least
      1, and everything else gives the fallback. */
  function NormalizePositiveInteger(value: JsValue, fallback: int): (r: int)
    ensures r >= 1 || r == fallback
    ensures value.Num? && value.n.Finite? && value.n.r >= 1.0 ==> r == value.n.r.Floor
    ensures value.Num? && !(value.n.Finite? && value.n.r >= 1.0) ==> r == fallback
    ensures value.Str? && ParseInt(value.s).Some? && ParseInt(value.s).value >= 1 ==> r == ParseInt(value.s).value
    ensures value.Str? && !(ParseInt(value.s).Some? && ParseInt(value.s).value >= 1) ==> r == fallback
    ensures !value.Num? && !value.Str? ==> r == fallback
  {
    match value
    case Num(n) => if n.Finite? && n.r >= 1.0 then n.r.Floor else fallback
    case Str(s) =>
      var parsed := ParseInt(s);
      if parsed.Some? && parsed.value >= 1 then parsed.value else fallback
    case _ => fallback
  }

  /** A page number written in decimal in the URL comes back as that
      number; a word gives the fallback. */
  lemma PositiveIntegerOfDecimal(n: nat, word: string, fallback: int)
    requires n >= 1
    requires word != [] && 'a' <= word[0] <= 'z'
    ensures NormalizePositiveInteger(Str(NatToString(n)), fallback) == n
    ensures NormalizePositiveInteger(Str(word), fallback) == fallback
  {
    ParseIntOfDecimal(n);
    ParseIntNaN(word);
  }

  /** `normalizeVisibility`: nothing for a missing or blank value, the
      trimmed value when it is one of the three visibilities, and otherwise
      it throws. */
  function NormalizeVisibility(value: JsValue): (r: Result<Option<string>, Exception>)
    ensures r == Success(None) <==> TrimmedText(value).None?
    ensures r.Success? && r.value.Some? ==> r.value == TrimmedText(value) && r.value.value in VISIBILITIES
    ensures r.Failure? <==> TrimmedText(value).Some? && TrimmedText(value).value !in VISIBILITIES
    ensures r.Failure? ==> r.error == PlainErr(INVALID_VISIBILITY)
  {
    var cleaned := TrimmedText(value);
    if cleaned.None? then Success(None)
    else if cleaned.value == "active" || cleaned.value == "archived" || cleaned.value == "all" then Success(cleaned)
    else Failure(PlainErr(INVALID_VISIBILITY))
  }

  /** The query input the action builds. */
  function QueryInputOf(input: SearchMembersActionInput): (r: Result<SearchMembersQueryInput, Exception>)
    ensures r.Failure? <==> NormalizeVisibility(input.visibility).Failure?
    ensures r.Success? ==>
      && r.value.page == Some(Finite(NormalizePositiveInteger(input.page, DEFAULT_PAGE) as real))
      && r.value.pageSize == Some(Finite(NormalizePositiveInteger(input.pageSize, DEFAULT_PAGE_SIZE) as real))
      && r.value.name == TrimmedText(input.name)
      && r.value.profile == TrimmedText(input.profile)
      && r.value.visibility == NormalizeVisibility(input.visibility).value
  {
    var visibility := NormalizeVisibility(input.visibility);
    if visibility.Failure? then Failure(visibility.error)
    else
      Success(SearchMembersQueryInput(
        Some(Finite(NormalizePositiveInteger(input.page, DEFAULT_PAGE) as real)),
        Some(Finite(NormalizePositiveInteger(input.pageSize, DEFAULT_PAGE_SIZE) as real)),
        TrimmedText(input.name), TrimmedText(input.profile), visibility.value))
  }

  /** `searchMembersAction` as a whole: an invalid visibility throws before
      the query runs; otherwise the query's result comes back unchanged. */
  function SearchMembers(input: SearchMembersActionInput, findMany: FindManyArgs -> seq<MemberRow>,
                         count: MemberWhere -> int): (r: Result<SearchMembersQueryResult, Exception>)
    ensures QueryInputOf(input).Failure? ==> r == Failure(PlainErr(INVALID_VISIBILITY))
    ensures QueryInputOf(input).Success? ==> r == SearchResultOf(QueryInputOf(input).value, findMany, count)
  {
    var query := QueryInputOf(input);
    if query.Failure? then Failure(query.error) else SearchResultOf(query.value, findMany, count)
  }

  /** `searchMembersAction`. */
  method SearchMembersAction(input: SearchMembersActionInput, findMany: FindManyArgs -> seq<MemberRow>,
                            count: MemberWhere -> int)
    returns (r: Result<SearchMembersQueryResult, Exception>)
    ensures r == SearchMembers(input, findMany, count)
  {
    var page := NormalizePositiveInteger(input.page, DEFAULT_PAGE);
    var pageSize := NormalizePositiveInteger(input.pageSize, DEFAULT_PAGE_SIZE);
    var name := TrimmedText(input.name);
    var profile := TrimmedText(input.profile);
    var visibility := NormalizeVisibility(input.visibility);
    if visibility.Failure? {
      return Failure(visibility.error);
    }
    r := Execute(SearchMembersQueryInput(Some(Finite(page as real)), Some(Finite(pageSize as real)), name, profile,
                                         visibility.value), findMany, count);
  }

  /** Through the action the page is always a finite whole number of at
      least 1, which the query echoes unchanged, and the page size is the
      requested one capped at 100. */
  lemma ActionPagingIsEchoed(input: SearchMembersActionInput, findMany: FindManyArgs -> seq<MemberRow>,
                             count: MemberWhere -> int)
    requires SearchMembers(input, findMany, count).Success?
    ensures var r := SearchMembers(input, findMany, count).value;
      var page := NormalizePositiveInteger(input.page, DEFAULT_PAGE);
      var size := NormalizePositiveInteger(input.pageSize, DEFAULT_PAGE_SIZE);
      && page >= 1 && r.page == Finite(page as real)
      && r.pageSize == (if size > MAX_PAGE_SIZE then MAX_PAGE_SIZE else size)
  {
    var page := NormalizePositiveInteger(input.page, DEFAULT_PAGE);
    var size := NormalizePositiveInteger(input.pageSize, DEFAULT_PAGE_SIZE);
    assert (page as real).Floor == page;
    assert (size as real).Floor == size;
  }

  /** Through the action the name and profile filters are the sanitised
      texts, and the status filter is `active` unless the page asks for
      `archived` or `all`; an unknown visibility reaches no query. */
  lemma ActionFilterIsSanitized(input: SearchMembersActionInput)
    requires QueryInputOf(input).Success?
    ensures var w := WhereOf(QueryInputOf(input).value);
      && w.fullNameContains == TrimmedText(input.name)
      && w.profileEquals == TrimmedText(input.profile)
      && (TrimmedText(input.visibility).None? ==> w.status == Some("active"))
      && (TrimmedText(input.visibility) == Some("archived") ==> w.status == Some("archived"))
      && (TrimmedText(input.visibility) == Some("all") ==> w.status == None)
  {
    if input.name.Str? {
      TrimIdempotent(input.name.s);
    }
    if input.profile.Str? {
      TrimIdempotent(input.profile.s);
    }
  }
}
