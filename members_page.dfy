/** The arithmetic and URL handling of the members list page: the current
    page and the filters come from the query string, the page count from the
    search total, and page changes are clamped into range. */
module MembersPage {
  import opened Wrappers
  import opened Text
  import opened Js
  import opened Dates
  import SearchMembersAction

  const PAGE_SIZE := 10

  /** The query string, one value per parameter. */
  type Params = map<string, string>

  /** `parsePage`: 1 for a missing or empty parameter, otherwise a
      `parseInt` result of at least 1, and 1 for anything else. */
  function ParsePage(value: Option<string>): (r: int)
    ensures r >= 1
    ensures value.None? || value == Some([]) ==> r == 1
    ensures value.Some? && value.value != [] && ParseInt(value.value).Some? && ParseInt(value.value).value >= 1 ==>
      r == ParseInt(value.value).value
    ensures value.Some? && !(ParseInt(value.value).Some? && ParseInt(value.value).value >= 1) ==> r == 1
  {
    if value.None? || value.value == [] then 1
    else
      var parsed := ParseInt(value.value);
      if parsed.Some? && parsed.value >= 1 then parsed.value else 1
  }

  /** A page the page itself wrote into the URL (`String(page)`) reads back
      as that page. */
  lemma ParsePageOfWritten(page: nat)
    requires page >= 1
    ensures ParsePage(Some(NatToString(page))) == page
  {
    ParseIntOfDecimal(page);
  }

  datatype AppliedFilters = AppliedFilters(name: string, profile: string, visibility: string)

  /** The parameter's value, or "" (`searchParams.get(key) ?? ''`). */
  function ParamOrEmpty(params: Params, key: string): string
  {
    if key in params then params[key] else ""
  }

  /** `appliedFilters`: `archived` and `all` are kept and anything else,
      a missing parameter included, is `active`; the name and the profile
      are trimmed. */
  function AppliedFiltersOf(params: Params): (r: AppliedFilters)
    ensures r.visibility in {"active", "archived", "all"}
    ensures r.visibility != "active" <==> "visibility" in params && params["visibility"] in {"archived", "all"}
    ensures r.visibility != "active" ==> r.visibility == params["visibility"]
    ensures r.name == Trim(ParamOrEmpty(params, "name")) && r.profile == Trim(ParamOrEmpty(params, "profile"))
  {
    var visibility := if "visibility" in params && (params["visibility"] == "archived" || params["visibility"] == "all")
                      then params["visibility"] else "active";
    AppliedFilters(Trim(ParamOrEmpty(params, "name")), Trim(ParamOrEmpty(params, "profile")), visibility)
  }

  /** The current page, from the `page` parameter. */
  function CurrentPage(params: Params): (r: int)
    ensures r >= 1
  {
    ParsePage(if "page" in params then Some(params["page"]) else None)
  }

  /** `totalPages`: `max(1, ceil(total / PAGE_SIZE))`. */
  function TotalPages(total: nat): (r: int)
    ensures r >= 1
    ensures total <= r * PAGE_SIZE
    ensures r == 1 || (r - 1) * PAGE_SIZE < total
  {
    var pages := (total + PAGE_SIZE - 1) / PAGE_SIZE;
    if pages < 1 then 1 else pages
  }

  /** Every item has a page: item `i` (from 0) is on page `i / PAGE_SIZE + 1`,
      which is never beyond the last one. */
  lemma EveryItemHasAPage(total: nat, i: nat)
    requires i < total
    ensures 1 <= i / PAGE_SIZE + 1 <= TotalPages(total)
  {
    var n := TotalPages(total);
    assert i < n * PAGE_SIZE;
  }

  /** `handlePageChange`'s `Math.min(Math.max(nextPage, 1), totalPages)`. */
  function ClampPage(nextPage: int, totalPages: int): (r: int)
    ensures totalPages >= 1 ==> 1 <= r <= totalPages
    ensures 1 <= nextPage <= totalPages ==> r == nextPage
    ensures nextPage < 1 && totalPages >= 1 ==> r == 1
    ensures nextPage > totalPages ==> r == totalPages
  {
    var atLeastOne := if nextPage > 1 then nextPage else 1;
    if atLeastOne < totalPages then atLeastOne else totalPages
  }

  /** Clamping twice is clamping once. */
  lemma ClampIdempotent(nextPage: int, totalPages: int)
    requires totalPages >= 1
    ensures ClampPage(ClampPage(nextPage, totalPages), totalPages) == ClampPage(nextPage, totalPages)
  {
  }

  /** `updateQueryString`: an undefined or empty value deletes the
      parameter, any other value sets it; the others stay. */
  function UpdateQueryString(params: Params, updates: map<string, Option<string>>): (r: Params)
    ensures forall k :: k in updates && (updates[k].None? || updates[k] == Some([])) ==> k !in r
    ensures forall k :: k in updates && updates[k].Some? && updates[k].value != [] ==> k in r && r[k] == updates[k].value
    ensures forall k :: k !in updates ==> (k in r <==> k in params) && (k in params ==> r[k] == params[k])
  {
    map k | k in params.Keys + updates.Keys && !(k in updates && (updates[k].None? || updates[k] == Some([])))
      :: if k in updates then updates[k].value else params[k]
  }

  /** `name || undefined`. */
  function OrUndefined(s: string): Option<string>
  {
    if s == [] then None else Some(s)
  }

  /** The update `handleFiltersSubmit` makes. */
  function SubmitFiltersUpdate(name: string, profile: string, visibility: string): map<string, Option<string>>
  {
    map["name" := OrUndefined(name), "profile" := OrUndefined(profile), "visibility" := Some(visibility),
        "page" := Some("1")]
  }

  /** The update `handleClearFilters` makes. */
  const CLEAR_FILTERS_UPDATE: map<string, Option<string>> :=
    map["name" := None, "profile" := None, "visibility" := None, "page" := Some("1")]

  /** The update `handlePageChange` makes. */
  function PageChangeUpdate(nextPage: int, totalPages: int): map<string, Option<string>>
  {
    var safePage := ClampPage(nextPage, totalPages);
    map["page" := Some(IntToString(safePage))]
  }

  /** The page parameter both filter handlers write reads as page 1. */
  lemma FirstPageWritten(params: Params)
    requires "page" in params && params["page"] == "1"
    ensures CurrentPage(params) == 1
  {
    ParsePageOfWritten(1);
    assert NatToString(1) == "1";
  }

  /** Submitting the filters goes back to the first page and applies the
      filters typed, trimmed. */
  lemma SubmitFiltersResetsPage(params: Params, name: string, profile: string, visibility: string)
    requires visibility in {"active", "archived", "all"}
    ensures var next := UpdateQueryString(params, SubmitFiltersUpdate(name, profile, visibility));
      && CurrentPage(next) == 1
      && AppliedFiltersOf(next) == AppliedFilters(Trim(name), Trim(profile), visibility)
  {
    var update := SubmitFiltersUpdate(name, profile, visibility);
    var next := UpdateQueryString(params, update);
    assert update["page"] == Some("1");
    FirstPageWritten(next);
    assert update["name"] == OrUndefined(name) && update["profile"] == OrUndefined(profile);
    assert ParamOrEmpty(next, "name") == name;
    assert ParamOrEmpty(next, "profile") == profile;
  }

  /** Clearing the filters goes back to the first page of the active
      members, with no name or profile filter. */
  lemma ClearFiltersResetsPage(params: Params)
    ensures var next := UpdateQueryString(params, CLEAR_FILTERS_UPDATE);
      && CurrentPage(next) == 1 && AppliedFiltersOf(next) == AppliedFilters("", "", "active")
  {
    FirstPageWritten(UpdateQueryString(params, CLEAR_FILTERS_UPDATE));
    assert Trim("") == "";
  }

  /** A page change always lands on a page that exists and leaves the
      filters as they are. */
  lemma PageChangeStaysInRange(params: Params, nextPage: int, total: nat)
    ensures var next := UpdateQueryString(params, PageChangeUpdate(nextPage, TotalPages(total)));
      && 1 <= CurrentPage(next) <= TotalPages(total)
      && CurrentPage(next) == ClampPage(nextPage, TotalPages(total))
      && AppliedFiltersOf(next) == AppliedFiltersOf(params)
  {
    var safePage := ClampPage(nextPage, TotalPages(total));
    ParsePageOfWritten(safePage);
    var next := UpdateQueryString(params, PageChangeUpdate(nextPage, TotalPages(total)));
    assert ParamOrEmpty(next, "name") == ParamOrEmpty(params, "name");
    assert ParamOrEmpty(next, "profile") == ParamOrEmpty(params, "profile");
  }

  /** The request the page sends the search action, and what the action
      makes of its page: the page shown is the page asked for. */
  lemma RequestedPageReachesQuery(params: Params)
    ensures SearchMembersAction.NormalizePositiveInteger(Num(Finite(CurrentPage(params) as real)), 1)
            == CurrentPage(params)
    ensures SearchMembersAction.NormalizePositiveInteger(Num(Finite(PAGE_SIZE as real)), 10) == PAGE_SIZE
  {
    assert (CurrentPage(params) as real).Floor == CurrentPage(params);
  }
}
