/**
 * `GET /api/medicines`: reads the query parameters, builds a conjunctive
 * filter and a one-key sort, asks the catalog for one page of the sorted
 * matches and for the number of matches, and reports page metadata.
 *
 * The catalog engine is a parameter: its `$text` search, its regular
 * expressions and JavaScript `parseFloat` are left abstract.
 */
module MedicinesRoute {
  import opened Wrappers
  import opened JsNumber
  import opened Medicine

  /** Decoded query parameters in URL order. */
  type Params = seq<(string, string)>

  /** `URLSearchParams.get`: the value of the first parameter named `key`, or null. */
  function Lookup(params: Params, key: string): (v: Option<string>)
    ensures v.None? <==> forall i :: 0 <= i < |params| ==> params[i].0 != key
    ensures v.Some? ==> (key, v.value) in params
  {
    if params == [] then None
    else if params[0].0 == key then Some(params[0].1)
    else Lookup(params[1..], key)
  }

  /** The value found is the one at the first entry under `key`. */
  lemma {:induction false} LookupFirst(params: Params, key: string, i: nat)
    requires i < |params| && params[i].0 == key
    requires forall j :: 0 <= j < i ==> params[j].0 != key
    ensures Lookup(params, key) == Some(params[i].1)
  {
    if i > 0 {
      LookupFirst(params[1..], key, i - 1);
    }
  }

  lemma {:induction false} LookupAppend(a: Params, b: Params, key: string)
    ensures Lookup(a + b, key) == if Lookup(a, key).Some? then Lookup(a, key) else Lookup(b, key)
  {
    if a != [] {
      assert (a + b)[1..] == a[1..] + b;
      LookupAppend(a[1..], b, key);
    } else {
      assert a + b == b;
    }
  }

  /** A string parameter JavaScript treats as true: present and not empty. */
  predicate Given(v: Option<string>) {
    v.Some? && v.value != ""
  }

  /** JavaScript `v || fallback` on a parameter. */
  function OrElse(v: Option<string>, fallback: string): (s: string)
    ensures Given(v) ==> s == v.value
    ensures !Given(v) ==> s == fallback
  {
    if Given(v) then v.value else fallback
  }

  /** The request as the handler reads it; `None` for `page` and `limit` is `NaN`. */
  datatype Request = Request(
    page: Option<int>,
    limit: Option<int>,
    search: string,
    category: string,
    manufacturer: string,
    minPrice: Option<string>,
    maxPrice: Option<string>,
    sortBy: string,
    sortOrder: string)

  function ReadRequest(params: Params): (q: Request)
    ensures !Given(Lookup(params, "page")) ==> q.page == Some(1)
    ensures !Given(Lookup(params, "limit")) ==> q.limit == Some(20)
    ensures Given(Lookup(params, "page")) ==> q.page == ParseInt(Lookup(params, "page").value)
    ensures Given(Lookup(params, "limit")) ==> q.limit == ParseInt(Lookup(params, "limit").value)
    ensures q.sortBy == OrElse(Lookup(params, "sortBy"), "medicine_name")
    ensures q.sortOrder == OrElse(Lookup(params, "sortOrder"), "asc")
    ensures q.sortBy != "" && q.sortOrder != ""
    ensures q.search == OrElse(Lookup(params, "search"), "")
    ensures q.category == OrElse(Lookup(params, "category"), "")
    ensures q.manufacturer == OrElse(Lookup(params, "manufacturer"), "")
    ensures q.minPrice == Lookup(params, "minPrice") && q.maxPrice == Lookup(params, "maxPrice")
  {
    Request(
      // `parseInt(page || '1')`, with the default written as the number it parses to
      if Given(Lookup(params, "page")) then ParseInt(Lookup(params, "page").value) else Some(1),
      if Given(Lookup(params, "limit")) then ParseInt(Lookup(params, "limit").value) else Some(20),
      OrElse(Lookup(params, "search"), ""),
      OrElse(Lookup(params, "category"), ""),
      OrElse(Lookup(params, "manufacturer"), ""),
      Lookup(params, "minPrice"),
      Lookup(params, "maxPrice"),
      OrElse(Lookup(params, "sortBy"), "medicine_name"),
      OrElse(Lookup(params, "sortOrder"), "asc"))
  }

  /** `page` and `limit` are read as `parseInt(page || '1')` and `parseInt(limit || '20')`. */
  lemma ReadRequestParsesDefaults(params: Params)
    ensures ReadRequest(params).page == ParseInt(OrElse(Lookup(params, "page"), "1"))
    ensures ReadRequest(params).limit == ParseInt(OrElse(Lookup(params, "limit"), "20"))
  {
    ParseIntOfDefaults();
  }

  /** A JavaScript number as `parseFloat` returns it (infinities are not modelled). */
  datatype Num = NaN | Finite(x: real)

  /** The catalog's own machinery, which the handler only calls. */
  datatype Engine = Engine(
    textMatch: (string, Record) -> bool,   // `{ $text: { $search: s } }` admits the record
    regexValid: string -> bool,            // `new RegExp(p, 'i')` does not throw and the catalog server accepts the pattern
    sortFieldValid: string -> bool,        // the catalog server accepts the name as a field path to sort on
    regexMatch: (string, string) -> bool,  // the case-insensitive pattern `p` matches the value
    parseFloat: string -> Num)

  /** The `price` criterion: `$gte` and `$lte` bounds, each optional. */
  datatype PriceRange = PriceRange(gte: Option<Num>, lte: Option<Num>)

  /** The filter object; an absent criterion admits every record. */
  datatype Filter = Filter(
    text: Option<string>,
    category: Option<string>,
    manufacturer: Option<string>,
    price: Option<PriceRange>)

  /**
   * The price comparisons. A `NaN` bound never reaches the catalog (the
   * query fails to cast it), so only a finite bound is compared.
   */
  predicate AtLeast(price: real, bound: Num) { bound.Finite? && price >= bound.x }

  predicate AtMost(price: real, bound: Num) { bound.Finite? && price <= bound.x }

  /** How the catalog reads a filter object: every present criterion must hold. */
  predicate Matches(f: Filter, engine: Engine, r: Record) {
    && (f.text.Some? ==> engine.textMatch(f.text.value, r))
    && (f.category.Some? ==> engine.regexMatch(f.category.value, r.categoryName))
    && (f.manufacturer.Some? ==> engine.regexMatch(f.manufacturer.value, r.manufacturerName))
    && (f.price.Some? ==>
          && (f.price.value.gte.Some? ==> AtLeast(r.price, f.price.value.gte.value))
          && (f.price.value.lte.Some? ==> AtMost(r.price, f.price.value.lte.value)))
  }

  /** What the request asks for, stated on the parameters themselves. */
  predicate Admits(q: Request, engine: Engine, r: Record) {
    && (q.search != "" ==> engine.textMatch(q.search, r))
    && (q.category != "" ==> engine.regexMatch(q.category, r.categoryName))
    && (q.manufacturer != "" ==> engine.regexMatch(q.manufacturer, r.manufacturerName))
    && (Given(q.minPrice) ==> AtLeast(r.price, engine.parseFloat(q.minPrice.value)))
    && (Given(q.maxPrice) ==> AtMost(r.price, engine.parseFloat(q.maxPrice.value)))
  }

  /** Both price bounds that are given read as numbers. */
  predicate BoundsNumeric(q: Request, engine: Engine) {
    && (Given(q.minPrice) ==> engine.parseFloat(q.minPrice.value).Finite?)
    && (Given(q.maxPrice) ==> engine.parseFloat(q.maxPrice.value).Finite?)
  }

  /** Both non-empty patterns compile. */
  predicate PatternsCompile(q: Request, engine: Engine) {
    && (q.category != "" ==> engine.regexValid(q.category))
    && (q.manufacturer != "" ==> engine.regexValid(q.manufacturer))
  }

  /**
   * Builds the filter object criterion by criterion; `None` when a pattern
   * does not compile (the handler then answers 500).
   */
  method BuildFilter(q: Request, engine: Engine) returns (f: Option<Filter>)
    ensures f.Some? <==> PatternsCompile(q, engine)
    ensures f.Some? ==> (f.value.text.Some? <==> q.search != "")
    ensures f.Some? ==> (f.value.category.Some? <==> q.category != "")
    ensures f.Some? ==> (f.value.manufacturer.Some? <==> q.manufacturer != "")
    ensures f.Some? ==> (f.value.price.Some? <==> Given(q.minPrice) || Given(q.maxPrice))
    ensures f.Some? && f.value.price.Some? ==>
              && (f.value.price.value.gte.Some? <==> Given(q.minPrice))
              && (f.value.price.value.lte.Some? <==> Given(q.maxPrice))
    ensures f.Some? ==> forall r :: Matches(f.value, engine, r) <==> Admits(q, engine, r)
  {
    var filter := Filter(None, None, None, None);
    if q.search != "" {
      filter := filter.(text := Some(q.search));
    }
    if q.category != "" {
      if !engine.regexValid(q.category) {
        return None;
      }
      filter := filter.(category := Some(q.category));
    }
    if q.manufacturer != "" {
      if !engine.regexValid(q.manufacturer) {
        return None;
      }
      filter := filter.(manufacturer := Some(q.manufacturer));
    }
    if Given(q.minPrice) || Given(q.maxPrice) {
      var range := PriceRange(None, None);
      if Given(q.minPrice) {
        range := range.(gte := Some(engine.parseFloat(q.minPrice.value)));
      }
      if Given(q.maxPrice) {
        range := range.(lte := Some(engine.parseFloat(q.maxPrice.value)));
      }
      filter := filter.(price := Some(range));
    }
    return Some(filter);
  }

  /** The sort object: the single key `sortBy`, descending exactly when `sortOrder` is "desc". */
  function BuildSort(q: Request): (s: SortSpec)
    ensures s.field == q.sortBy
    ensures s.direction == -1 <==> q.sortOrder == "desc"
    ensures s.direction == 1 <==> q.sortOrder != "desc"
  {
    SortSpec(q.sortBy, if q.sortOrder == "desc" then -1 else 1)
  }

  /** The records of `s` that satisfy `p`, in their order in `s`. */
  function Filtered(s: seq<Record>, p: Record -> bool): (r: seq<Record>)
    ensures |r| <= |s|
    ensures forall x :: x in r ==> x in s && p(x)
    ensures forall x :: x in s && p(x) ==> x in r
    ensures forall x :: multiset(r)[x] == if p(x) then multiset(s)[x] else 0
  {
    if s == [] then []
    else
      var head := if p(s[0]) then [s[0]] else [];
      assert s == [s[0]] + s[1..];
      assert multiset(s) == multiset{s[0]} + multiset(s[1..]);
      head + Filtered(s[1..], p)
  }

  lemma {:induction false} FilteredSamePredicate(s: seq<Record>, p: Record -> bool, p': Record -> bool)
    requires forall x :: p(x) == p'(x)
    ensures Filtered(s, p) == Filtered(s, p')
  {
    if s != [] {
      FilteredSamePredicate(s[1..], p, p');
    }
  }

  /** The records a filter object selects (`find` and `countDocuments` use the same one). */
  function Select(catalog: seq<Record>, engine: Engine, f: Filter): seq<Record> {
    Filtered(catalog, r => Matches(f, engine, r))
  }

  /** The records the request asks for. */
  function Eligible(catalog: seq<Record>, engine: Engine, q: Request): seq<Record> {
    Filtered(catalog, r => Admits(q, engine, r))
  }

  function Min(a: int, b: int): int { if a <= b then a else b }

  function Abs(a: int): nat { if a < 0 then -a else a }

  /**
   * `.skip(skip).limit(limit)`: the slice that starts `skip` records in and holds
   * at most `limit` of them. A limit of 0 means no limit; a negative limit
   * returns at most `-limit` records.
   */
  function Window(s: seq<Record>, skip: nat, limit: int): (w: seq<Record>)
    ensures limit != 0 ==> |w| <= Abs(limit)
    ensures Min(skip, |s|) + |w| <= |s| && w == s[Min(skip, |s|)..Min(skip, |s|) + |w|]
    ensures forall x :: x in w ==> x in s
    ensures skip >= |s| ==> w == []
    ensures limit == 0 ==> w == s[Min(skip, |s|)..]
    ensures limit != 0 ==> |w| == Min(Abs(limit), |s| - Min(skip, |s|))
  {
    var from := Min(skip, |s|);
    var n := if limit == 0 then |s| - from else Min(Abs(limit), |s| - from);
    s[from..from + n]
  }

  /** `Math.ceil(total / limit)`; `None` when `limit` is 0 (the reply then carries null). */
  function PageCount(total: nat, limit: int): (pages: Option<int>)
    ensures pages.None? <==> limit == 0
  {
    if limit == 0 then None else Some(CeilDiv(total, limit))
  }

  /** `skip = (page - 1) * limit`. */
  function Skip(page: int, limit: int): int {
    (page - 1) * limit
  }

  /**
   * The request fails (500) when a pattern does not compile, a price bound
   * is `NaN` (the `Number` cast of `price` rejects it), the sort field is not
   * a field path, `page` or `limit` is `NaN`, or the skip is negative.
   */
  predicate Fails(q: Request, engine: Engine) {
    || !PatternsCompile(q, engine)
    || !BoundsNumeric(q, engine)
    || !engine.sortFieldValid(q.sortBy)
    || q.page.None? || q.limit.None?
    || Skip(q.page.value, q.limit.value) < 0
  }

  /** The `pagination` part of the reply. */
  datatype PageInfo = PageInfo(current: int, pages: Option<int>, total: nat, limit: int)

  datatype Response = Listing(medicines: seq<Record>, pagination: PageInfo) | ServerError

  method Get(params: Params, catalog: seq<Record>, engine: Engine) returns (resp: Response)
    ensures resp.ServerError? <==> Fails(ReadRequest(params), engine)
    ensures resp.Listing? ==>
      var q := ReadRequest(params);
      var eligible := Eligible(catalog, engine, q);
      && resp.medicines == Window(Sort(BuildSort(q), eligible), Skip(q.page.value, q.limit.value), q.limit.value)
      && resp.pagination == PageInfo(q.page.value, PageCount(|eligible|, q.limit.value), |eligible|, q.limit.value)
    ensures resp.Listing? ==> forall r :: r in resp.medicines ==> r in catalog && Admits(ReadRequest(params), engine, r)
    ensures resp.Listing? && resp.pagination.limit > 0 ==> |resp.medicines| <= resp.pagination.limit
    ensures resp.Listing? ==> |resp.medicines| <= resp.pagination.total
  {
    var q := ReadRequest(params);
    var filter := BuildFilter(q, engine);
    if filter.None? {
      return ServerError;
    }
    if q.page.None? || q.limit.None? {
      return ServerError;
    }
    var page, limit := q.page.value, q.limit.value;
    var skip := Skip(page, limit);
    var sort := BuildSort(q);
    if skip < 0 || !BoundsNumeric(q, engine) || !engine.sortFieldValid(q.sortBy) {
      // the query is rejected when it is cast and sent to the catalog
      return ServerError;
    }
    var selected := Select(catalog, engine, filter.value);
    var sorted := Sort(sort, selected);
    var medicines := Window(sorted, skip, limit);
    var total := |selected|;
    ListingSound(catalog, engine, q, filter.value, sort, skip, limit);
    return Listing(medicines, PageInfo(page, PageCount(total, limit), total, limit));
  }

  /** What one listing reply holds, given a filter equivalent to the request. */
  lemma ListingSound(catalog: seq<Record>, engine: Engine, q: Request, f: Filter, sort: SortSpec, skip: nat, limit: int)
    requires forall r :: Matches(f, engine, r) <==> Admits(q, engine, r)
    ensures Select(catalog, engine, f) == Eligible(catalog, engine, q)
    ensures forall r :: r in Window(Sort(sort, Select(catalog, engine, f)), skip, limit) ==> r in catalog && Admits(q, engine, r)
    ensures |Window(Sort(sort, Select(catalog, engine, f)), skip, limit)| <= |Select(catalog, engine, f)|
  {
    FilteredSamePredicate(catalog, r => Matches(f, engine, r), r => Admits(q, engine, r));
  }

  /** Page `p` of `s` for a positive page size. */
  function PageOf(s: seq<Record>, p: nat, limit: nat): seq<Record>
    requires p >= 1 && limit >= 1
  {
    Window(s, Skip(p, limit), limit)
  }

  /** Page `p` is the slice from `(p - 1) * limit` to `p * limit`, cut at the end of `s`. */
  lemma PageOfSlice(s: seq<Record>, p: nat, limit: nat)
    requires p >= 1 && limit >= 1
    ensures PageOf(s, p, limit) == s[Min((p - 1) * limit, |s|)..Min(p * limit, |s|)]
  {
    assert (p - 1) * limit + limit == p * limit;
  }

  /** Pages `p` and `p + 1` are adjacent slices: nothing between them, nothing shared. */
  lemma ConsecutivePagesAdjacent(s: seq<Record>, p: nat, limit: nat)
    requires p >= 1 && limit >= 1
    ensures PageOf(s, p, limit) + PageOf(s, p + 1, limit) == s[Min((p - 1) * limit, |s|)..Min((p + 1) * limit, |s|)]
  {
    PageOfSlice(s, p, limit);
    PageOfSlice(s, p + 1, limit);
    var from, mid := (p - 1) * limit, p * limit;
    assert mid == from + limit && (p + 1) * limit == mid + limit && (p + 1 - 1) * limit == mid;
    var a, b, c := Min(from, |s|), Min(mid, |s|), Min(mid + limit, |s|);
    assert s[a..b] + s[b..c] == s[a..c];
  }

  /** Pages 1 to `k`, one after the other. */
  function FirstPages(s: seq<Record>, k: nat, limit: nat): seq<Record>
    requires limit >= 1
  {
    if k == 0 then [] else FirstPages(s, k - 1, limit) + PageOf(s, k, limit)
  }

  lemma {:induction false} FirstPagesArePrefix(s: seq<Record>, k: nat, limit: nat)
    requires limit >= 1
    ensures FirstPages(s, k, limit) == s[..Min(k * limit, |s|)]
  {
    if k > 0 {
      FirstPagesArePrefix(s, k - 1, limit);
      PageOfSlice(s, k, limit);
      var before := (k - 1) * limit;
      assert k * limit == before + limit;
      assert s[..Min(before, |s|)] + s[Min(before, |s|)..Min(k * limit, |s|)] == s[..Min(k * limit, |s|)];
    }
  }

  /**
   * Reading every page from 1 to the reported page count yields the whole
   * sorted result set, each record once and in order.
   */
  lemma AllPagesCoverResult(s: seq<Record>, limit: nat)
    requires limit >= 1
    ensures FirstPages(s, PageCount(|s|, limit).value, limit) == s
  {
    var pages := CeilDiv(|s|, limit);
    FirstPagesArePrefix(s, pages, limit);
  }

  /** A page past the reported page count is empty. */
  lemma PagesBeyondCountEmpty(s: seq<Record>, p: nat, limit: nat)
    requires limit >= 1 && p > PageCount(|s|, limit).value
    ensures PageOf(s, p, limit) == []
  {
    var pages := CeilDiv(|s|, limit);
    assert (p - 1) * limit >= pages * limit;
  }

  /** Every page from 1 to the reported page count holds at least one record. */
  lemma PagesWithinCountNonEmpty(s: seq<Record>, p: nat, limit: nat)
    requires limit >= 1 && 1 <= p <= PageCount(|s|, limit).value
    ensures PageOf(s, p, limit) != []
  {
    var pages := CeilDiv(|s|, limit);
    MulMonotonic(p - 1, pages - 1, limit);
    PageOfSlice(s, p, limit);
  }

  /** `pages = ceil(total / limit)` for a positive limit. */
  lemma PageCountIsCeiling(total: nat, limit: nat)
    requires limit >= 1
    ensures PageCount(total, limit).value * limit >= total
    ensures total > 0 ==> (PageCount(total, limit).value - 1) * limit < total
    ensures PageCount(total, limit).value == 0 <==> total == 0
  {
  }
}
