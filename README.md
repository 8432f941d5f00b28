# Medicine catalog: listing, paging and import

This project models the core of a web catalog of about 20 000 Bangladeshi
medicines. A Next.js application stores one document per medicine in a
MongoDB collection and serves it through a listing endpoint. A React page
searches, filters, sorts and pages through that listing. A script fills the
collection from a CSV file.

The model has four parts, one per piece of the program:

- **The listing handler** (`GET /api/medicines`), in `medicines_route.dfy`. It
  reads the query parameters with their defaults, parsing `page` and `limit`
  with JavaScript `parseInt`. It builds the filter object step by step: a text
  search, case-insensitive patterns for category and manufacturer, and a price
  range. It builds a one-key sort. It then answers with the sorted, skipped
  and limited slice, plus a `pagination` block whose `pages` is
  `Math.ceil(total / limit)`. The database query is a pure function of the
  catalog, a sequence of documents:
  - `find(filter)` is a filter over the catalog.
  - `sort` is a stable sort on one key, in the database's cross-type order.
  - `skip` and `limit` are a window.
  - `countDocuments` is the size of the filtered catalog.
- **The pagination bar**, in `pagination.dfy`. `getPageNumbers` builds the
  window of at most seven page numbers and `...` markers with pushes in loops.
  The bar shows nothing for one page or fewer. Previous and Next are
  disabled at the ends.
- **The catalog page**, in `home_page.dfy`. It is a class holding the page's
  state. Its methods are the handlers: sort, order toggle, filter changes,
  clearing the filters, page change. The request is the query string the page
  sends. The effect refetches page 1 whenever the search text, the filters
  object, the sort field or the order changes. A fetch's reply is a parameter.
- **The import script**, in `import_data.dfy`. Both the TypeScript and the
  JavaScript versions are covered, because their logic is the same line for
  line. The script clears the collection, maps every row to a document with
  the defaults `strength || ''`, `parseInt(unit_size) || 1` and
  `parseFloat(price) || 0`, then inserts the documents in batches of 1000 and
  logs `Imported batch k/total`.

`js_number.dfy` holds the JavaScript number conversions these share:
`parseInt` without a radix, `toString` on integers and `Math.ceil(a / b)`.
`medicine.dfy` holds the document and its sort order.

Choices where the program leaves the behaviour to its libraries:

- `parseInt` returning `NaN` is `None`.
- A `NaN` or negative skip and a `NaN` limit make the query fail. The reply is then a 500.
- A limit of 0 means no limit, and the reply's `pages` is `null`.
- A negative limit returns at most `-limit` documents.
- A price bound that `parseFloat` reads as `NaN` makes the query fail, because `price` is a `Number` path and the cast rejects `NaN`. The reply is then a 500.
- A sort field the database does not accept as a field path, and a pattern its regular expression engine rejects, make the query fail too. Both checks are abstract (`Engine.sortFieldValid`, `Engine.regexValid`).
- A missing sort field sorts before numbers, and numbers before strings. Strings compare code point by code point.

A 500 reply is modelled as far as the fetch handles it. Its JSON body has no
`medicines` or `pagination`, so both become undefined and `currentPage` still
moves. The render that follows reads `pagination.total` and
`medicines.length` on undefined and throws, which tears the page down; the
model stops at the state the fetch leaves behind.

## Model

| member | source | states |
|---|---|---|
| JsNumber.ParseInt | src/app/api/medicines/route.ts:10-11 | `parseInt` without a radix: leading white space, an optional sign, then decimal digits (hexadecimal after `0x`); `NaN` when no digit follows |
| JsNumber.IntToString | src/app/page.tsx:48-49 | `toString()` of an integer: never empty, with a leading minus exactly for a negative number |
| JsNumber.ParseIntOfIntToString | src/app/page.tsx:48-49 | `parseInt` of an integer's `toString()` is that integer, so the page number and limit the page sends are the ones the handler reads |
| JsNumber.ParseIntOfDefaults | src/app/api/medicines/route.ts:10-11 | the default texts `'1'` and `'20'` parse to 1 and 20 |
| JsNumber.CeilDiv | src/app/api/medicines/route.ts:66 | `Math.ceil(a / b)` is the integer `r` with `(r - 1) * b < a <= r * b` (reversed for a negative divisor) |
| JsNumber.CeilDivUnique | src/app/api/medicines/route.ts:66 | no other integer satisfies that bracket |
| Medicine.PrecedesTotal | src/app/api/medicines/route.ts:49-50 | under a one-key sort, of any two documents one may come first |
| Medicine.PrecedesTransitive | src/app/api/medicines/route.ts:49-50 | the one-key sort order is transitive, in both directions |
| Medicine.Insert | src/app/api/medicines/route.ts:54 | inserting into a sorted sequence keeps it sorted and adds exactly that document |
| Medicine.Key | src/app/api/medicines/route.ts:49-54 | the value a document holds under the sort field: its text or number for one of the nine data fields, missing for any other name |
| Medicine.KeyLe | src/app/api/medicines/route.ts:54 | the database's order on sort values: missing before numbers, numbers before strings, strings code point by code point |
| Medicine.Sort | src/app/api/medicines/route.ts:53-54 | `.sort(sort)` returns a permutation of the matching documents that is ordered on the sort key |
| MedicinesRoute.Lookup | src/app/api/medicines/route.ts:9-18 | `searchParams.get(key)` is null exactly when no parameter has that name, and otherwise a value given under that name |
| MedicinesRoute.LookupFirst | src/app/api/medicines/route.ts:9-18 | the value found is that of the first parameter with the name |
| MedicinesRoute.LookupAppend | src/app/api/medicines/route.ts:9-18 | looking up in two lists of parameters one after the other finds the first list's value when it has one |
| MedicinesRoute.OrElse | src/app/api/medicines/route.ts:12-14 | as with JavaScript's logical or, a present, non-empty value is kept and anything else gives the fallback |
| MedicinesRoute.ReadRequest | src/app/api/medicines/route.ts:10-18 | absent or empty `page`, `limit`, `sortBy` and `sortOrder` take the defaults 1, 20, `medicine_name` and `asc`; given `page` and `limit` are parsed and given `sortBy` and `sortOrder` are kept as sent; search, category and manufacturer default to empty; the price bounds are read raw |
| MedicinesRoute.ReadRequestParsesDefaults | src/app/api/medicines/route.ts:10-11 | `page` and `limit` are exactly `parseInt` of the given text, or of `'1'` and `'20'` when it is absent or empty |
| MedicinesRoute.Matches | src/app/api/medicines/route.ts:53 | how the database reads a filter object: every present criterion must hold |
| MedicinesRoute.Admits | src/app/api/medicines/route.ts:12-16 | what the request asks for, stated on the parameters themselves |
| MedicinesRoute.BuildFilter | src/app/api/medicines/route.ts:20-43 | the filter is built exactly when both patterns compile; each criterion is present exactly when its parameter is non-empty; `$gte` and `$lte` are present exactly when their bound is given; a document matches the filter exactly when it satisfies every requested criterion |
| MedicinesRoute.BuildSort | src/app/api/medicines/route.ts:48-50 | sorts on `sortBy`, with direction -1 exactly when `sortOrder` is `desc` and 1 otherwise |
| MedicinesRoute.Filtered | src/app/api/medicines/route.ts:53 | the documents kept are exactly those of the catalog that satisfy the predicate, each as often as the catalog holds it, so `countDocuments` is the number of catalog documents the filter admits |
| MedicinesRoute.FilteredSamePredicate | src/app/api/medicines/route.ts:53 | two predicates that agree on every document select the same documents |
| MedicinesRoute.Window | src/app/api/medicines/route.ts:55-56 | `.skip(s).limit(l)` is the contiguous slice starting at `s`, empty past the end, holding the absolute value of `l` documents or all that remain after `s` when fewer do (the last page), and everything after `s` when `l` is 0 |
| MedicinesRoute.Skip | src/app/api/medicines/route.ts:46 | `skip = (page - 1) * limit` |
| MedicinesRoute.Fails | src/app/api/medicines/route.ts:29-74 | the request-caused failures that reach the 500 branch: a pattern that does not compile, a `NaN` price bound, a sort field that is not a field path, a `NaN` page or limit, a negative skip |
| MedicinesRoute.PageCount | src/app/api/medicines/route.ts:66 | `pages` is null exactly when the limit is 0 |
| MedicinesRoute.Get | src/app/api/medicines/route.ts:5-75 | the reply is a 500 exactly when a pattern does not compile, a given price bound reads as `NaN`, the sort field is not a field path, `page` or `limit` is `NaN` or the skip is negative; otherwise it is the window of the sorted matching documents and `{current: page, pages, total, limit}`; every returned document is in the catalog and satisfies the request; there are at most `limit` of them and at most `total` |
| MedicinesRoute.ListingSound | src/app/api/medicines/route.ts:53-60 | the filter counts and finds the same documents as the request asks for, and the window holds only such documents |
| MedicinesRoute.PageOfSlice | src/app/api/medicines/route.ts:46 | page `p` is the slice from `(p - 1) * limit` to `p * limit`, cut at the end |
| MedicinesRoute.ConsecutivePagesAdjacent | src/app/api/medicines/route.ts:46 | pages `p` and `p + 1` together are one contiguous slice: no document is skipped or repeated between them |
| MedicinesRoute.FirstPagesArePrefix | src/app/api/medicines/route.ts:46 | pages 1 to `k` together are the first `k * limit` documents |
| MedicinesRoute.AllPagesCoverResult | src/app/api/medicines/route.ts:60-66 | reading pages 1 to `pages` returns every matching document exactly once, in order |
| MedicinesRoute.PagesBeyondCountEmpty | src/app/api/medicines/route.ts:66 | a page past `pages` is empty |
| MedicinesRoute.PagesWithinCountNonEmpty | src/app/api/medicines/route.ts:66 | every page from 1 to `pages` holds at least one document |
| MedicinesRoute.PageCountIsCeiling | src/app/api/medicines/route.ts:66 | `pages * limit` covers `total`, one page fewer does not, and `pages` is 0 exactly when nothing matches |
| Pagination.Run | src/components/Pagination.tsx:16-18 | the loop pushes the consecutive numbers from `lo` to `hi` |
| Pagination.RunExtend | src/components/Pagination.tsx:16-18 | one more iteration extends the run by its next number |
| Pagination.AppendRun | src/components/Pagination.tsx:29-31 | each of the four counting loops appends exactly the numbers `lo` to `hi`, in order, after what the window already holds (an empty run when `lo > hi`) |
| Pagination.GapsMarkedRise | src/components/Pagination.tsx:24-39 | in a window whose gaps are marked, numbers strictly increase from left to right |
| Pagination.WellFormedFromGaps | src/components/Pagination.tsx:24-39 | a window that starts and ends on numbers in range and marks its gaps lists increasing numbers in range |
| Pagination.RunWellFormed | src/components/Pagination.tsx:15-18 | with seven pages or fewer, the window is `1..totalPages` and well formed |
| Pagination.SevenWellFormed | src/components/Pagination.tsx:19-41 | each of the three seven-entry shapes starts at 1, ends at `totalPages`, increases, marks every skipped stretch with `...` and shows the current page when it is in range |
| Pagination.PageWindowWellFormed | src/components/Pagination.tsx:15-41 | the window for a page is every page when there are at most seven, otherwise the start, end or middle shape; it has seven entries from 1 to `totalPages`, increasing numbers, `...` exactly where numbers are skipped, and the current page when it is in range |
| Pagination.GetPageNumbers | src/components/Pagination.tsx:11-44 | the pushes build exactly `PageWindow(currentPage, totalPages)`: up to seven pages are listed in full; beyond that the window is the start, end or middle shape chosen by the current page, with exactly seven entries from 1 to `totalPages`; numbers increase and stay in range; `...` stands exactly where numbers are skipped; the current page is always shown |
| Pagination.Click | src/components/Pagination.tsx:51 | a click requests a page exactly when the button is enabled and names one |
| Pagination.PreviousButton | src/components/Pagination.tsx:50-52 | Previous asks for `currentPage - 1` and is disabled on page 1 or below, or while loading |
| Pagination.NextButton | src/components/Pagination.tsx:78-80 | Next asks for `currentPage + 1` and is disabled on the last page or beyond, or while loading |
| Pagination.EntryButton | src/components/Pagination.tsx:60-71 | a number asks for its page and is highlighted exactly on the current page; a marker is disabled and asks for nothing |
| Pagination.Entries | src/components/Pagination.tsx:60-71 | one button per window entry, in order, each the entry's button |
| Pagination.EntriesInRange | src/components/Pagination.tsx:60-71 | in a window whose numbers lie in `1..totalPages`, every enabled button asks for such a page |
| Pagination.EntriesHighlight | src/components/Pagination.tsx:60-71 | a window that shows the current page highlights one button |
| Pagination.Render | src/components/Pagination.tsx:46-87 | nothing is rendered exactly when `totalPages <= 1`; otherwise the entries are exactly the buttons of `PageWindow(currentPage, totalPages)`, at most seven, between Previous and Next, every enabled entry asks for a page in `1..totalPages`, and one entry is highlighted when the current page is in range |
| Pagination.PreviousRequest | src/components/Pagination.tsx:51-52 | Previous changes the page exactly when past page 1 and not loading |
| Pagination.NextRequest | src/components/Pagination.tsx:79-80 | Next changes the page exactly before the last page and not loading |
| Pagination.EllipsisInert | src/components/Pagination.tsx:63-64 | a `...` marker never changes the page |
| HomePage.OrderName | src/app/page.tsx:39 | the order is sent as `desc` exactly when it is descending |
| HomePage.Flip | src/app/page.tsx:105 | the toggle always changes the order |
| HomePage.FlipTwice | src/app/page.tsx:180 | toggling twice restores the order |
| HomePage.Optional | src/app/page.tsx:50-54 | a spread `value && { key: value }` adds the key exactly when the value is non-empty, and nothing else |
| HomePage.LookupSegments | src/app/page.tsx:47-57 | in the concatenated parameter groups a key is found in the first group that holds it |
| HomePage.BuildParams | src/app/page.tsx:47-57 | the query string: `page` and `limit` as text, the non-empty search and filters, then `sortBy` and `sortOrder` |
| HomePage.SentParam | src/app/page.tsx:47-57 | under every key, the query string holds the page's value for it: the page and limit as text, each filter only when non-empty, the sort field and order |
| HomePage.ReadsExpected | src/app/api/medicines/route.ts:10-18 | parameters holding those values are read by the handler as the page's request |
| HomePage.HandlerReadsPageRequest | src/app/page.tsx:47-57 | the handler reads back exactly the page's page number, limit, search text, filters, sort field (the default when empty) and order |
| HomePage.Home.constructor | src/app/page.tsx:22-41 | the initial state: no medicines, pagination `{1, 1, 0, 20}`, not loading, empty search and filters, sorted by name ascending, grid view, page 1 |
| HomePage.Home.HandleSort | src/app/page.tsx:103-110 | choosing the current field reverses the order; choosing another sorts it ascending; nothing else changes |
| HomePage.Home.ToggleSortOrder | src/app/page.tsx:180 | the order button reverses the order and changes nothing else |
| HomePage.Home.HandleClearFilters | src/app/page.tsx:93-100 | every filter becomes empty, in a new filters object, and nothing else changes |
| HomePage.Home.HandleFiltersChange | src/app/page.tsx:88-90 | the filters are replaced by a new object, and nothing else changes |
| HomePage.Home.HandleSearchChange | src/app/page.tsx:83-85 | the typed search text is stored |
| HomePage.Home.SetViewMode | src/app/page.tsx:154 | the view mode is set |
| HomePage.Home.SettleSearch | src/app/page.tsx:31 | once the debounce delay passes, the search that takes effect is the typed one |
| HomePage.Home.FetchMedicines | src/app/page.tsx:44-70 | loading ends false; a request is sent exactly when a pagination block exists, built from the page and the current state; a decoded reply replaces medicines and pagination (undefined for a 500) and moves to the page; otherwise nothing but loading changes |
| HomePage.Home.HandlePageChange | src/app/page.tsx:78-80 | `fetchMedicines(page)`: loading ends false; the request, sent exactly when a pagination block exists, is built from that page and the current limit, search, filters and sort; a decoded reply replaces medicines and pagination and moves to the page; otherwise they stay |
| HomePage.Home.AfterRender | src/app/page.tsx:73-75 | with unchanged dependencies nothing is fetched and no state changes; after any change `fetchMedicines(1)` runs with the current limit, search, filters and sort, its reply replaces medicines and pagination and page 1 becomes current; the dependencies themselves are not changed |
| ImportData.UnitSizeOf | scripts/import-data.ts:30 | the unit size is never 0: it keeps a non-zero parsed value and gives 1 for `NaN` or 0 |
| ImportData.PriceOf | scripts/import-data.ts:31 | the price keeps a parsed price and gives 0 for `NaN` |
| ImportData.ToRecord | scripts/import-data.ts:22-32 | the text columns are copied, a missing strength becomes empty, the unit size is `parseInt(unit_size) || 1` (never 0) and the price `parseFloat(price) || 0` |
| ImportData.ImportRoundTrip | scripts/import-data.ts:22-32 | a document with a non-zero unit size, written as a row whose price reads back as its price, imports unchanged |
| ImportData.ZeroUnitSizeBecomesOne | scripts/import-data.ts:30 | a unit size of 0 cannot survive the import: it becomes 1 |
| ImportData.Mapped | scripts/import-data.js:90-102 | one document per row, each the mapping of its row, in file order |
| ImportData.Batches | scripts/import-data.ts:39-40 | `medicines.slice(i, i + size)` for `i = 0, size, 2 * size, …` while `i` is below the length |
| ImportData.BatchesCoverInput | scripts/import-data.ts:39-41 | inserting the batches in order inserts every document exactly once, in order |
| ImportData.BatchSizes | scripts/import-data.ts:38-40 | every batch holds 1 to 1000 documents, and all but the last exactly 1000 |
| ImportData.BatchCount | scripts/import-data.ts:42 | the number of batches is `Math.ceil(length / 1000)`, the total printed in each progress line |
| ImportData.BatchStep | scripts/import-data.js:108-110 | the batches from offset `i` are the slice `i..i+1000` followed by the batches after it |
| ImportData.ProgressLines | scripts/import-data.js:111 | after `count` batches the log holds one line per batch, the k-th reading `k` of the same total |
| ImportData.Store.constructor | scripts/import-data.js:73 | a collection holding the given documents |
| ImportData.Store.DeleteAll | scripts/import-data.ts:12 | `deleteMany({})` leaves the collection empty |
| ImportData.Store.InsertMany | scripts/import-data.ts:41 | `insertMany(batch)` appends the batch |
| ImportData.ReadRows | scripts/import-data.ts:21-33 | the `data` handler has pushed the mapping of every row, in file order |
| ImportData.InsertBatches | scripts/import-data.js:107-112 | the `end` handler appends every document to the collection, in `Batches(…, 1000)`, and logs `k + 1` of the batch count for the k-th batch |
| ImportData.Import | scripts/import-data.js:75-127 | after the import the collection holds exactly the mapped rows, inserted in `Math.ceil(n / 1000)` batches, each logged with its number and the total |

The two import scripts are identical in the modelled lines: `scripts/import-data.ts:12-43` and `scripts/import-data.js:81-112`.

## Left out

- MedicinesRoute.Get: a failed database connection or a database error unrelated to the request also answers 500; the model's 500s are only those the request itself causes.
- MedicinesRoute.Get: the `$text` search is an abstract predicate (`Engine.textMatch`). The text index, stemming and relevance are not modelled.
- MedicinesRoute.BuildFilter: `new RegExp(p, 'i')` is abstract. Whether a pattern compiles, both in JavaScript and in the database, is `Engine.regexValid`; whether it matches is `Engine.regexMatch`.
- `parseFloat` is abstract (`Engine.parseFloat`), and `Infinity` is not a modelled result; its price comparisons are left out with it.
- Medicine.Sort: ties are kept in catalog order. The database leaves the order of documents with equal keys unspecified, so this is one admissible order. The page lemmas (`MedicinesRoute.ConsecutivePagesAdjacent`, `FirstPagesArePrefix`, `AllPagesCoverResult`) assume that every request sees this same tie order; the database does not promise that across separate queries, so with repeated values of `category_name`, `manufacturer_name` or `price` real consecutive pages may repeat or skip tied documents.
- JsNumber.ParseInt: integers are unbounded. JavaScript `parseInt` rounds beyond 2^53 (`9007199254740993` reads as `9007199254740992`), so for such a `page` the reply's `current` differs from the model's.
- MedicinesRoute.Get: skip and limit are unbounded. The database reads them as 64-bit integers, so a skip or limit beyond 2^63 makes the query fail with a 500, while the model answers with a listing.
- JsNumber.IntToString: integers are unbounded. `toString` switches to exponent notation from 10^21 on, and numbers lose precision beyond 2^53; neither is modelled.
- The `_id`, `createdAt` and `updatedAt` fields and `.lean()` are not modelled. A document is its nine data fields.
- ImportData.Store.InsertMany: never fails. Schema validation (required fields) and the unique index on `slug` are not modelled.
- ImportData.Import: reading the CSV file is a parameter (the rows in file order). A missing file, the stream's `error` event, `process.exit`, the connection and the log lines other than the batch progress are left out.
- HomePage.Home.FetchMedicines: the network is a parameter (the reply). Overlapping fetches whose replies arrive out of order are not modelled; each fetch completes before the next handler runs.
- HomePage.Home.FetchMedicines: keeps the page's state after a 500 reply, while the real page throws on its next render (`pagination.total` and `medicines.length` of undefined) and is torn down, so no later handler runs.
- HomePage.Home.SettleSearch: the 300 ms debounce timer is an explicit step, not a clock.
- HomePage.Home.AfterRender: React's render scheduling is reduced to one call per render with the previous dependencies. The filters object's identity, which React compares, is a version counter.
- The query string is a list of decoded name/value pairs. URL encoding is not modelled.
- The statistics and filter-options routes, the `Medicine` schema file beyond the document's shape, and the rendering components (header, filters panel, cards, modal, statistics, loading spinner) are not part of this model.
