/**
 * The catalog page: its state (search text, filters, sort field and order,
 * current page, last reply), the handlers that change it, and the request
 * it sends to `GET /api/medicines`.
 *
 * The network is a parameter: each fetch is given the reply it receives.
 */
module HomePage {
  import opened Wrappers
  import opened JsNumber
  import opened Medicine
  import opened MedicinesRoute

  datatype SortOrder = Asc | Desc

  function OrderName(o: SortOrder): (name: string)
    ensures name == "desc" <==> o == Desc
  {
    match o
    case Asc => "asc"
    case Desc => "desc"
  }

  /** `sortOrder === 'asc' ? 'desc' : 'asc'`. */
  function Flip(o: SortOrder): (r: SortOrder)
    ensures r != o
  {
    if o == Asc then Desc else Asc
  }

  /** The four filter inputs, kept as the strings the user typed. */
  datatype Filters = Filters(category: string, manufacturer: string, minPrice: string, maxPrice: string)

  const NoFilters: Filters := Filters("", "", "", "")

  datatype ViewMode = Grid | List

  /** What one fetch produced: nothing usable (the request or the JSON decoding threw), or a decoded reply. */
  datatype Reply = Unreachable | Received(response: Response)

  /** The values the refetch effect watches; `filtersVersion` stands for the identity of the filters object. */
  datatype Deps = Deps(debouncedSearch: string, filtersVersion: nat, sortBy: string, sortOrder: SortOrder)

  /** `{ key: value }` spread into the parameters only when `value` is not empty. */
  function Optional(key: string, value: string): (p: Params)
    ensures forall k :: Lookup(p, k) == if k == key then Sent(value) else None
  {
    if value != "" then [(key, value)] else []
  }

  /** What the handler finds under a key the page sends only when its value is not empty. */
  function Sent(value: string): (v: Option<string>)
    ensures v.Some? <==> value != ""
    ensures v.Some? ==> v.value == value
  {
    if value != "" then Some(value) else None
  }

  /** A key is looked up in the first segment that holds it. */
  lemma LookupSegments(s0: Params, s1: Params, s2: Params, s3: Params, s4: Params, s5: Params, s6: Params, k: string)
    ensures Lookup(s0 + s1 + s2 + s3 + s4 + s5 + s6, k) ==
      if Lookup(s0, k).Some? then Lookup(s0, k)
      else if Lookup(s1, k).Some? then Lookup(s1, k)
      else if Lookup(s2, k).Some? then Lookup(s2, k)
      else if Lookup(s3, k).Some? then Lookup(s3, k)
      else if Lookup(s4, k).Some? then Lookup(s4, k)
      else if Lookup(s5, k).Some? then Lookup(s5, k)
      else Lookup(s6, k)
  {
    LookupAppend(s0 + s1 + s2 + s3 + s4 + s5, s6, k);
    LookupAppend(s0 + s1 + s2 + s3 + s4, s5, k);
    LookupAppend(s0 + s1 + s2 + s3, s4, k);
    LookupAppend(s0 + s1 + s2, s3, k);
    LookupAppend(s0 + s1, s2, k);
    LookupAppend(s0, s1, k);
  }

  /**
   * The query string of a fetch: `page`, `limit`, the non-empty ones of
   * `search` and the four filters, then `sortBy` and `sortOrder`.
   */
  function BuildParams(page: int, limit: int, search: string, filters: Filters, sortBy: string, sortOrder: SortOrder): Params
  {
    var head: Params := [("page", IntToString(page)), ("limit", IntToString(limit))];
    var o1 := Optional("search", search);
    var o2 := Optional("category", filters.category);
    var o3 := Optional("manufacturer", filters.manufacturer);
    var o4 := Optional("minPrice", filters.minPrice);
    var o5 := Optional("maxPrice", filters.maxPrice);
    var tail: Params := [("sortBy", sortBy), ("sortOrder", OrderName(sortOrder))];
    head + o1 + o2 + o3 + o4 + o5 + tail
  }

  /** What the handler finds under key `k` in what the page sends. */
  function Expected(pageText: string, limitText: string, search: string, filters: Filters, sortBy: string, sortOrder: SortOrder, k: string): Option<string> {
    if k == "page" then Some(pageText)
    else if k == "limit" then Some(limitText)
    else if k == "search" then Sent(search)
    else if k == "category" then Sent(filters.category)
    else if k == "manufacturer" then Sent(filters.manufacturer)
    else if k == "minPrice" then Sent(filters.minPrice)
    else if k == "maxPrice" then Sent(filters.maxPrice)
    else if k == "sortBy" then Some(sortBy)
    else if k == "sortOrder" then Some(OrderName(sortOrder))
    else None
  }

  lemma SentParam(page: int, limit: int, search: string, filters: Filters, sortBy: string, sortOrder: SortOrder, k: string)
    ensures Lookup(BuildParams(page, limit, search, filters, sortBy, sortOrder), k) == Expected(IntToString(page), IntToString(limit), search, filters, sortBy, sortOrder, k)
  {
    var head: Params := [("page", IntToString(page)), ("limit", IntToString(limit))];
    var tail: Params := [("sortBy", sortBy), ("sortOrder", OrderName(sortOrder))];
    LookupSegments(head, Optional("search", search), Optional("category", filters.category),
      Optional("manufacturer", filters.manufacturer), Optional("minPrice", filters.minPrice),
      Optional("maxPrice", filters.maxPrice), tail, k);
  }

  /** The four parameters the page always sends. */
  lemma SentFixedKeys(page: int, limit: int, search: string, filters: Filters, sortBy: string, sortOrder: SortOrder)
    ensures var p := BuildParams(page, limit, search, filters, sortBy, sortOrder);
      && Lookup(p, "page") == Some(IntToString(page))
      && Lookup(p, "limit") == Some(IntToString(limit))
      && Lookup(p, "sortBy") == Some(sortBy)
      && Lookup(p, "sortOrder") == Some(OrderName(sortOrder))
  {
    SentParam(page, limit, search, filters, sortBy, sortOrder, "page");
    SentParam(page, limit, search, filters, sortBy, sortOrder, "limit");
    SentParam(page, limit, search, filters, sortBy, sortOrder, "sortBy");
    SentParam(page, limit, search, filters, sortBy, sortOrder, "sortOrder");
  }

  /** The five parameters the page sends only when they are not empty. */
  lemma SentOptionalKeys(page: int, limit: int, search: string, filters: Filters, sortBy: string, sortOrder: SortOrder)
    ensures var p := BuildParams(page, limit, search, filters, sortBy, sortOrder);
      && Lookup(p, "search") == Sent(search)
      && Lookup(p, "category") == Sent(filters.category)
      && Lookup(p, "manufacturer") == Sent(filters.manufacturer)
      && Lookup(p, "minPrice") == Sent(filters.minPrice)
      && Lookup(p, "maxPrice") == Sent(filters.maxPrice)
  {
    SentParam(page, limit, search, filters, sortBy, sortOrder, "search");
    SentParam(page, limit, search, filters, sortBy, sortOrder, "category");
    SentParam(page, limit, search, filters, sortBy, sortOrder, "manufacturer");
    SentParam(page, limit, search, filters, sortBy, sortOrder, "minPrice");
    SentParam(page, limit, search, filters, sortBy, sortOrder, "maxPrice");
  }

  /** The request the handler reads from parameters that hold exactly what the page sends. */
  lemma ReadsExpected(p: Params, pageText: string, limitText: string, search: string, filters: Filters, sortBy: string, sortOrder: SortOrder)
    requires pageText != "" && limitText != ""
    requires Lookup(p, "page") == Some(pageText)
    requires Lookup(p, "limit") == Some(limitText)
    requires Lookup(p, "search") == Sent(search)
    requires Lookup(p, "category") == Sent(filters.category)
    requires Lookup(p, "manufacturer") == Sent(filters.manufacturer)
    requires Lookup(p, "minPrice") == Sent(filters.minPrice)
    requires Lookup(p, "maxPrice") == Sent(filters.maxPrice)
    requires Lookup(p, "sortBy") == Some(sortBy)
    requires Lookup(p, "sortOrder") == Some(OrderName(sortOrder))
    ensures ReadRequest(p) ==
      Request(ParseInt(pageText), ParseInt(limitText), search, filters.category, filters.manufacturer,
              Sent(filters.minPrice), Sent(filters.maxPrice),
              if sortBy != "" then sortBy else "medicine_name", OrderName(sortOrder))
  {
  }

  /**
   * The handler reads back exactly what the page sent: the page number and
   * limit, the search text and filters, the sort field (the default when
   * the page's field is empty) and the order.
   */
  lemma HandlerReadsPageRequest(page: int, limit: int, search: string, filters: Filters, sortBy: string, sortOrder: SortOrder)
    ensures ReadRequest(BuildParams(page, limit, search, filters, sortBy, sortOrder)) ==
      Request(Some(page), Some(limit), search, filters.category, filters.manufacturer,
              Sent(filters.minPrice), Sent(filters.maxPrice),
              if sortBy != "" then sortBy else "medicine_name", OrderName(sortOrder))
  {
    var p := BuildParams(page, limit, search, filters, sortBy, sortOrder);
    SentFixedKeys(page, limit, search, filters, sortBy, sortOrder);
    SentOptionalKeys(page, limit, search, filters, sortBy, sortOrder);
    ReadsExpected(p, IntToString(page), IntToString(limit), search, filters, sortBy, sortOrder);
    ParseIntOfIntToString(page);
    ParseIntOfIntToString(limit);
  }

  class Home {
    var medicines: Option<seq<Record>>
    var pagination: Option<PageInfo>
    var isLoading: bool
    var search: string
    var debouncedSearch: string
    var filters: Filters
    var filtersVersion: nat
    var sortBy: string
    var sortOrder: SortOrder
    var viewMode: ViewMode
    var currentPage: int

    constructor ()
      ensures medicines == Some([]) && pagination == Some(PageInfo(1, Some(1), 0, 20))
      ensures !isLoading && search == "" && debouncedSearch == ""
      ensures filters == NoFilters && filtersVersion == 0
      ensures sortBy == "medicine_name" && sortOrder == Asc
      ensures viewMode == Grid && currentPage == 1
    {
      medicines := Some([]);
      pagination := Some(PageInfo(1, Some(1), 0, 20));
      isLoading := false;
      search, debouncedSearch := "", "";
      filters, filtersVersion := NoFilters, 0;
      sortBy, sortOrder := "medicine_name", Asc;
      viewMode := Grid;
      currentPage := 1;
    }

    /** The effect's dependency list as it stands now. */
    function Watched(): Deps
      reads this
    {
      Deps(debouncedSearch, filtersVersion, sortBy, sortOrder)
    }

    /** Choosing the current field again reverses the order; choosing another field sorts it ascending. */
    method HandleSort(field: string)
      modifies this
      ensures old(sortBy) == field ==> sortBy == field && sortOrder == Flip(old(sortOrder))
      ensures old(sortBy) != field ==> sortBy == field && sortOrder == Asc
      ensures filters == old(filters) && filtersVersion == old(filtersVersion)
      ensures debouncedSearch == old(debouncedSearch) && search == old(search)
      ensures currentPage == old(currentPage) && pagination == old(pagination) && medicines == old(medicines)
      ensures isLoading == old(isLoading) && viewMode == old(viewMode)
    {
      if sortBy == field {
        sortOrder := Flip(sortOrder);
      } else {
        sortBy := field;
        sortOrder := Asc;
      }
    }

    /** The order button reverses the order and changes nothing else. */
    method ToggleSortOrder()
      modifies this
      ensures sortOrder == Flip(old(sortOrder)) && sortBy == old(sortBy)
      ensures filters == old(filters) && filtersVersion == old(filtersVersion)
      ensures debouncedSearch == old(debouncedSearch) && search == old(search)
      ensures currentPage == old(currentPage) && pagination == old(pagination) && medicines == old(medicines)
      ensures isLoading == old(isLoading) && viewMode == old(viewMode)
    {
      sortOrder := Flip(sortOrder);
    }

    /** Every filter input becomes empty, in a new filters object. */
    method HandleClearFilters()
      modifies this
      ensures filters == NoFilters && filtersVersion == old(filtersVersion) + 1
      ensures sortBy == old(sortBy) && sortOrder == old(sortOrder)
      ensures debouncedSearch == old(debouncedSearch) && search == old(search)
      ensures currentPage == old(currentPage) && pagination == old(pagination) && medicines == old(medicines)
      ensures isLoading == old(isLoading) && viewMode == old(viewMode)
    {
      filters := NoFilters;
      filtersVersion := filtersVersion + 1;
    }

    method HandleFiltersChange(newFilters: Filters)
      modifies this
      ensures filters == newFilters && filtersVersion == old(filtersVersion) + 1
      ensures sortBy == old(sortBy) && sortOrder == old(sortOrder)
      ensures debouncedSearch == old(debouncedSearch) && search == old(search)
      ensures currentPage == old(currentPage) && pagination == old(pagination) && medicines == old(medicines)
      ensures isLoading == old(isLoading) && viewMode == old(viewMode)
    {
      filters := newFilters;
      filtersVersion := filtersVersion + 1;
    }

    method HandleSearchChange(newSearch: string)
      modifies this`search
      ensures search == newSearch
    {
      search := newSearch;
    }

    method SetViewMode(mode: ViewMode)
      modifies this`viewMode
      ensures viewMode == mode
    {
      viewMode := mode;
    }

    /** The debounce delay has passed with no further typing: the search text takes effect. */
    method SettleSearch()
      modifies this`debouncedSearch
      ensures debouncedSearch == search
    {
      debouncedSearch := search;
    }

    /**
     * `fetchMedicines(page)`: sends the request built from the current state
     * (`sent`; none when there is no `pagination` to read the limit from)
     * and, when a reply is decoded, takes its medicines and pagination and
     * moves to `page`. A reply without them (a 500) leaves both undefined.
     */
    method FetchMedicines(page: int, reply: Reply) returns (sent: Option<Params>)
      modifies this`medicines, this`pagination, this`currentPage, this`isLoading
      ensures !isLoading
      ensures sent.Some? <==> old(pagination).Some?
      ensures sent.Some? ==> sent.value == BuildParams(page, old(pagination).value.limit, old(debouncedSearch), old(filters), old(sortBy), old(sortOrder))
      ensures sent.Some? && reply.Received? ==>
                && currentPage == page
                && medicines == (if reply.response.Listing? then Some(reply.response.medicines) else None)
                && pagination == (if reply.response.Listing? then Some(reply.response.pagination) else None)
      ensures sent.None? || reply.Unreachable? ==>
                currentPage == old(currentPage) && medicines == old(medicines) && pagination == old(pagination)
    {
      isLoading := true;
      sent := None;
      if pagination.Some? {
        var params := BuildParams(page, pagination.value.limit, debouncedSearch, filters, sortBy, sortOrder);
        sent := Some(params);
        if reply.Received? {
          if reply.response.Listing? {
            medicines := Some(reply.response.medicines);
            pagination := Some(reply.response.pagination);
          } else {
            medicines := None;
            pagination := None;
          }
          currentPage := page;
        }
      }
      isLoading := false;
    }

    /** A click in the pagination bar: `fetchMedicines(page)` with the current search, filters and sort. */
    method HandlePageChange(page: int, reply: Reply) returns (sent: Option<Params>)
      modifies this`medicines, this`pagination, this`currentPage, this`isLoading
      ensures !isLoading
      ensures sent.Some? <==> old(pagination).Some?
      ensures sent.Some? ==> sent.value == BuildParams(page, old(pagination).value.limit, old(debouncedSearch), old(filters), old(sortBy), old(sortOrder))
      ensures sent.Some? ==> Lookup(sent.value, "page") == Some(IntToString(page))
      ensures sent.Some? && reply.Received? ==>
                && currentPage == page
                && medicines == (if reply.response.Listing? then Some(reply.response.medicines) else None)
                && pagination == (if reply.response.Listing? then Some(reply.response.pagination) else None)
      ensures sent.None? || reply.Unreachable? ==>
                currentPage == old(currentPage) && medicines == old(medicines) && pagination == old(pagination)
    {
      var limit := if pagination.Some? then pagination.value.limit else 0;
      sent := FetchMedicines(page, reply);
      SentParam(page, limit, debouncedSearch, filters, sortBy, sortOrder, "page");
    }

    /**
     * The effect after a render: when the search text, the filters object,
     * the sort field or the order differ from the previous render (or on the
     * first render), fetch page 1.
     */
    method AfterRender(previous: Option<Deps>, reply: Reply) returns (sent: Option<Params>)
      modifies this`medicines, this`pagination, this`currentPage, this`isLoading
      ensures previous == Some(old(Watched())) ==>
                && sent.None? && currentPage == old(currentPage) && isLoading == old(isLoading)
                && medicines == old(medicines) && pagination == old(pagination)
      ensures previous != Some(old(Watched())) ==>
                && !isLoading
                && (sent.Some? <==> old(pagination).Some?)
                && (sent.Some? ==> sent.value == BuildParams(1, old(pagination).value.limit, old(debouncedSearch), old(filters), old(sortBy), old(sortOrder)))
                && (sent.Some? ==> Lookup(sent.value, "page") == Some("1"))
      ensures previous != Some(old(Watched())) && sent.Some? && reply.Received? ==>
                && currentPage == 1
                && medicines == (if reply.response.Listing? then Some(reply.response.medicines) else None)
                && pagination == (if reply.response.Listing? then Some(reply.response.pagination) else None)
      ensures sent.None? || reply.Unreachable? ==>
                currentPage == old(currentPage) && medicines == old(medicines) && pagination == old(pagination)
      ensures Watched() == old(Watched())
    {
      sent := None;
      if previous != Some(Watched()) {
        var limit := if pagination.Some? then pagination.value.limit else 0;
        sent := FetchMedicines(1, reply);
        SentParam(1, limit, debouncedSearch, filters, sortBy, sortOrder, "page");
        assert IntToString(1) == "1";
      }
    }
  }

  /** Reversing the order twice restores it. */
  lemma FlipTwice(o: SortOrder)
    ensures Flip(Flip(o)) == o
  {
  }
}
