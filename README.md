# price-tracker, modelled in Dafny

price-tracker is a small HTTP service that keeps two in-memory catalogs. One holds
stores. The other holds products, each with a history of recorded prices. It also
has a scheduled job. The job opens every product page in a headless browser and
asks a language model to read the price from the page text. It then records each
positive price it gets in the product's history.

This project models that core:

- `common.dfy` (module `Common`) holds the JavaScript behaviour the handlers rely
  on: truthiness of optional strings, `Array.prototype.filter`, `find`, `slice`
  with its clipping of negative and oversized bounds, ASCII `toLowerCase` and
  `includes`, and the message of a caught value (`error.message`, or
  `'Unknown error'` for anything that is not an `Error`).
- `pagination.dfy` (module `Pagination`) holds `createPage`, `Math.ceil` of the
  page count, the slice window every list endpoint returns, and the bounds and
  defaults of `paginationSchema`.
- `stores.dfy` (module `Stores`) holds the `stores` array as the class
  `StoreRegistry`, plus POST, GET and list of stores.
- `products.dfy` (module `Products`) holds the `products` and `priceHistories`
  arrays as the class `Catalog`. Its methods are POST /products,
  PUT /products/:id and POST /products/:id/prices. It also holds the catalog
  invariant these methods keep:
  - product ids are unique;
  - every history row belongs to a product;
  - each product's cached `currentPrice`, `priceChangePercentage` and
    `lastUpdated` agree with its own history rows.
- `product_queries.dfy` (module `ProductQueries`) holds the read-only product
  endpoints: GET one product, the product list with its name and store filters,
  and the paged price history.
- `extractor.dfy` (module `Extractor`) holds `extractPrice`:
  - it builds the prompt (fixed instructions, an optional product hint, the page
    text cut to 15000 characters);
  - it trims the model's reply and takes the greedy `{ ... }` span;
  - it parses that span as JSON and coerces a non-numeric price with
    `parseFloat(String(...))`;
  - it maps any thrown error to a failed extraction.
- `scraper.dfy` (module `Scraper`) holds the browser (the class `Browser`),
  `fetchPageContent`, `scrapeProduct` and `scrapeProducts`:
  - a price counts as success only when it is a positive number and recording it
    succeeded;
  - the run goes through a snapshot of the products in order and closes the
    browser whatever happens.
- `scheduler.dfy` (module `Scheduler`) holds:
  - the start-up checks of the environment;
  - the single-run guard `isRunning` (the class `Scheduler`);
  - the success and failure counts reported after each run.

Everything the service gets from outside is a parameter:
- `Scraper.World` carries what one scrape run meets, each function of it
  indexed by the position of the product in the run: page loads, the
  extractor's answer for a page, the clock, the generated ids of history
  rows, and faults while launching the browser, listing products or
  recording a price;
- `Extractor.ExtractPrice` takes the language model's reply to a prompt
  (`generate`), `JSON.parse` (`jsonParse`) and `parseFloat` as function
  parameters, not indexed by position;
- the handlers take generated ids and the current time as arguments.

The function `Scraper.UsingExtractor` plugs `Extractor.ExtractPrice` in as the
scraper's extraction step; there the model's replies are indexed by product
position as well.

## Model

| member | source | states |
|---|---|---|
| Common.FilterAppend | src/features/products/list-products.ts:11-21 | filtering a concatenation is the concatenation of the filtered parts, so filter keeps order |
| Common.FilterPartition | src/scheduler.ts:72-73 | rows kept by a predicate plus rows kept by its negation number exactly the rows |
| Pagination.CeilDiv | src/types/pagination.ts:23 | `Math.ceil(n / d)` for a positive page size is the least `r` with `n <= r * d` |
| Pagination.CeilDivUnique | src/types/pagination.ts:23 | any `r` with `(r - 1) * d < n <= r * d` is the ceiling, so the page count is unique |
| Pagination.CeilDivZero | src/types/pagination.ts:23 | a non-negative count has a non-negative page count, zero exactly when there are no rows |
| Pagination.CreatePage | src/types/pagination.ts:17-31 | items, count, page number and size pass through, and `totalPages` is the page count of `totalCount` |
| Pagination.PageOf | src/features/stores/list-stores.ts:16-27 | the page holds the filtered rows sliced at `[(pn - 1) * pz, (pn - 1) * pz + pz)`, at most `pz` of them, with the total count and page count of all filtered rows |
| Pagination.PageItemAt | src/features/stores/list-stores.ts:17-19 | from page 1 on, item `i` of page `pn` is filtered row `(pn - 1) * pz + i` |
| Pagination.PageNonEmptyIff | src/features/stores/list-stores.ts:16-25 | for `pn >= 1` a page has items exactly when `pn <= totalPages`, and every page before the last is full |
| Pagination.ParsePagination | src/types/pagination.ts:7-15 | the query is accepted exactly when each present field is a number of at least 1 (page size at most 100); absent fields default to 1 and 10; on rejection each invalid field is named |
| Stores.GetStore | src/features/stores/get-store.ts:7-14 | found exactly when some store has the id; the result is the first store with that id; otherwise 404 "Store <id> not found" |
| Stores.StoresMatching | src/features/stores/list-stores.ts:9-15 | without a truthy name query all stores are kept; otherwise exactly the stores whose name contains the query ignoring case |
| Stores.ListStores | src/features/stores/list-stores.ts:7-29 | page number and size default to 1 and 10 when absent; the items are the `(pn - 1) * pz` slice window of the matching stores, at most `pz` of them, with their count and page count |
| Stores.NoNameMatchEmptyStores | src/features/stores/list-stores.ts:11-19 | a name query that no store name contains gives an empty page with count 0 |
| Stores.StoreRegistry.AddStore | src/features/stores/add-store.ts:7-10 | the new store has the request's name and url and the generated id, and is appended after all existing stores |
| Stores.AddThenGetStore | src/features/stores/add-store.ts:9 | a store added under an unused id is found by GET, and every other id is found as before |
| Products.PriceChangePercentage | src/features/products/add-price-history.ts:41-47 | with no prior price or a prior price that is not positive the change is 0 |
| Products.PriceChangeScales | src/features/products/add-price-history.ts:41-44 | for a positive prior price, applying the percentage to the prior price gives back the new price |
| Products.PriceChangeSign | src/features/products/add-price-history.ts:41-44 | for a positive prior price the change is positive exactly when the price rose, and zero exactly when it stayed the same |
| Products.PriceChangeExamples | src/features/products/add-price-history.ts:41-47 | 100 to 150 is +50, 200 to 150 is -25, and a missing or zero prior price gives 0 |
| Products.IndexOfUniqueId | src/features/products/add-price-history.ts:24 | with unique ids, `find` by a product's id returns that very product's position |
| Products.Recorded | src/features/products/add-price-history.ts:41-50 | recording a price sets current price, last update and percent change from the old price, and changes no other field |
| Products.Edited | src/features/products/edit-product.ts:17-19 | an edit overwrites name, url and currency and keeps id, store and cached price fields |
| Products.Created | src/features/products/add-product.ts:30-33 | a new product carries the request's store, name, url and currency and the generated id, with no cached price |
| Products.HistoryOfAppend | src/features/products/add-price-history.ts:39 | an appended row extends its own product's history at the end and leaves every other product's history as it was |
| Products.RecordKeepsIds | src/features/products/add-price-history.ts:39-50 | recording a price keeps product ids unique and every history row owned |
| Products.RecordedCacheAgrees | src/features/products/add-price-history.ts:39-50 | if a product's cache agreed with its history, it agrees again after the row is appended and the cache rewritten |
| Products.RecordKeepsCache | src/features/products/add-price-history.ts:39-50 | after recording, every product's cache agrees with its history, the updated one and all others |
| Products.RecordKeepsInvariant | src/features/products/add-price-history.ts:24-50 | recording a price for an existing product preserves the catalog invariant |
| Products.EditKeepsInvariant | src/features/products/edit-product.ts:9-19 | editing a product preserves the catalog invariant |
| Products.CreateKeepsInvariant | src/features/products/add-product.ts:30-35 | appending a product with a fresh id and no cached price preserves the catalog invariant |
| Products.Catalog.AddPriceHistory | src/features/products/add-price-history.ts:24-52 | unknown product gives 404 and no change; otherwise the row (id, generated id, now, price) is appended and returned, only that product is rewritten as `Recorded`, and the invariant holds |
| Products.Catalog.AddProduct | src/features/products/add-product.ts:22-36 | unknown store gives 404 and no change; otherwise the created product is appended and returned, and the invariant holds |
| Products.Catalog.EditProduct | src/features/products/edit-product.ts:9-21 | unknown product gives 404 and no change; otherwise only the first product with the id is replaced by its edit and returned, history untouched, and the invariant holds |
| ProductQueries.GetProduct | src/features/products/get-product.ts:7-14 | found exactly when some product has the id; the result is the first such product; otherwise 404 "Product <id> not found" |
| ProductQueries.CreatedIsFound | src/features/products/add-product.ts:35 | a product appended under an unused id is what GET returns for that id |
| ProductQueries.ProductsMatching | src/features/products/list-products.ts:9-21 | a product is kept exactly when it passes the truthy name filter (case-insensitive substring) and the truthy store filter; with neither filter all products are kept |
| ProductQueries.ProductsMatchingIsOneFilter | src/features/products/list-products.ts:9-21 | the two filters in a row equal one order-preserving filter by their conjunction |
| ProductQueries.ListProducts | src/features/products/list-products.ts:6-37 | page number and size default to 1 and 10; the items are the slice window of the matching products, with their count and page count |
| ProductQueries.ListPriceHistories | src/features/products/list-price-histories.ts:10-39 | 404 exactly when the product is unknown; otherwise the slice window of that product's history rows, each a row of that product, with their count and page count |
| ProductQueries.NoHistoryEmptyPage | src/features/products/list-price-histories.ts:21-39 | a known product with no rows gives, for any page number and any page size of at least 1, an empty page with count 0 and 0 pages |
| ProductQueries.NoNameMatchEmptyPage | src/features/products/list-products.ts:11-26 | a name query that no product name contains gives an empty page with count 0 |
| Extractor.ContextHint | src/features/scraper/extractor.ts:34-36 | the hint is empty exactly when the name is missing or empty; otherwise it is the prefix, the name and a newline |
| Extractor.Truncated | src/features/scraper/extractor.ts:38 | the page text is cut to its first `min(15000, length)` string elements (Unicode scalar values; see Left out) |
| Extractor.PromptShape | src/features/scraper/extractor.ts:40-42 | the prompt is the instructions, then the hint, then the truncated page text, in that order and nothing else |
| Extractor.Trim | src/features/scraper/extractor.ts:45 | the reply loses exactly its leading and trailing JavaScript whitespace, and the middle is kept |
| Extractor.TrimIdempotent | src/features/scraper/extractor.ts:45 | trimming twice is trimming once |
| Extractor.BraceSpan | src/features/scraper/extractor.ts:47 | no match exactly when no `{` comes before a `}`; otherwise the match runs from the first `{` to the last `}`, enclosing every other such span |
| Extractor.CoercePrice | src/features/scraper/extractor.ts:58-60 | null and numbers are kept; any other value becomes `parseFloat` of its string form |
| Extractor.ErrorOrUndefined | src/features/scraper/extractor.ts:64 | an empty or missing error becomes undefined; a non-empty one is kept |
| Extractor.JsonText | src/features/scraper/extractor.ts:45-47 | no text exactly when the trimmed reply has no brace span; otherwise the text is exactly the span of the trimmed reply: it occurs where the span starts and is as long as the span, so it starts with the first `{` and ends with the last `}` |
| Extractor.ReadReply | src/features/scraper/extractor.ts:45-65 | no JSON span gives null price and "Invalid response format"; a parse error gives null price and its message; a parsed reply gives its coerced price and its error or undefined |
| Extractor.ExtractPrice | src/features/scraper/extractor.ts:26-73 | a thrown model call gives null price and the error's message; otherwise the reply is read as above; a price is only ever present when the model replied |
| Extractor.OnlyPrefixMatters | src/features/scraper/extractor.ts:38-42 | two pages that agree on their first 15000 characters give the same prompt and the same extraction |
| Extractor.BareObjectParsedWhole | src/features/scraper/extractor.ts:45-56 | a reply that starts with `{` and ends with `}` is unchanged by the trim, its span is the whole reply, and the text given to the parser is the whole reply |
| Extractor.SpanSkipsBracelessProse | src/features/scraper/extractor.ts:47 | prose without braces around one object is cut away, leaving the object |
| Scraper.Browser.Close | src/features/scraper/scraper.ts:137-142 | closing the browser leaves it closed with no open pages |
| Scraper.FetchPageContent | src/features/scraper/scraper.ts:13-41 | the result is the page load's outcome, and the page opened for it is closed again whether the load returned or threw |
| Scraper.Decide | src/features/scraper/scraper.ts:62-110 | success exactly when the extraction returned a positive number and recording it did not throw; a success carries that price and no error; a failure carries no price and a reason (the thrown message, the extractor's error, or "Failed to extract price") |
| Scraper.FailureHasReason | src/features/scraper/scraper.ts:90-110 | every failed result carries an error; its text is non-empty unless it is the message of a thrown error or of a failed history write |
| Scraper.NonPositiveNeverRecords | src/features/scraper/scraper.ts:62 | a missing, NaN, zero or negative price is never a success |
| Scraper.UnparsableReplyFails | src/features/scraper/scraper.ts:55-95 | with the real extractor, a loaded page whose reply has no JSON span fails with "Invalid response format" |
| Scraper.ScrapeProduct | src/features/scraper/scraper.ts:43-112 | the result is the decision for this product; on failure the catalog is unchanged; on success exactly one row with the price is recorded for it; ids are kept, the invariant holds, and no page stays open |
| Scraper.RunResultsAt | src/features/scraper/scraper.ts:126-132 | the run's results are one per product, in product order, each the outcome of scraping that product |
| Scraper.RunProductsAt | src/features/scraper/scraper.ts:126-132 | after the first `n` products of a run, product `i` is rewritten by its own recorded row (`Recorded`) when `i < n` and its scrape succeeded, and is unchanged otherwise |
| Scraper.RunRowsAt | src/features/scraper/scraper.ts:126-132 | the rows a run appends are exactly the rows of its successful products: each success's row is among them and each of them is some success's row |
| Scraper.RunStep | src/features/scraper/scraper.ts:128-130 | one scrape advances the run's product list and appended rows by exactly that product's effect: nothing on failure, its row and its rewrite on success |
| Scraper.ScrapeAll | src/features/scraper/scraper.ts:126-132 | the loop returns exactly the run's results for the snapshot; afterwards the history is the old history followed by the successful products' rows in product order, the products are the snapshot with each successful product rewritten by its row, and the catalog invariant holds |
| Scraper.ScrapeProducts | src/features/scraper/scraper.ts:114-143 | a launch fault throws with no browser; otherwise the browser is closed at the end; a listing fault throws with the catalog unchanged; otherwise the results are the run's results over the snapshot (result `i` is the outcome of product `i`), the successful products' rows are appended to the history in order, and exactly those products are rewritten by their rows |
| Scheduler.Start | src/scheduler.ts:16-34 | the job is scheduled exactly when api key and model are set and the cron expression is valid; otherwise it exits with status 1 and the first failing check's message |
| Scheduler.Stats | src/scheduler.ts:72-73 | total is the result count, successful and failed count the results with and without success, and they add up to the total |
| Scheduler.NoSuccessAllFailed | src/scheduler.ts:72-73 | a run with no success reports 0 successful and all failed |
| Scheduler.SuccessesAreRecordedRows | src/scheduler.ts:69-73 | the number of successes a run counts equals the number of history rows it appends |
| Scheduler.RunReport | src/scheduler.ts:66-85 | the report is `Completed` exactly when the browser launched and the product list was read, otherwise `Failed` with the launch error or else the listing error; a completed report counts every product and as many successes as rows appended |
| Scheduler.Scheduler.Begin | src/scheduler.ts:58-63 | a tick while a run is active is skipped and logged; otherwise the flag is set and a run starts |
| Scheduler.Scheduler.Finish | src/scheduler.ts:69-88 | a run ends by logging its counts or its error, and the flag is cleared |
| Scheduler.Scheduler.Task | src/scheduler.ts:57-89 | a skipped tick logs `Skipped` and changes nothing else; otherwise the flag ends cleared, the earlier reports are kept and exactly `RunReport` is appended, and the catalog gets the run's rows and rewrites (or stays unchanged when launch or listing threw) |

## Left out

- The HTTP layer is not part of this model: Hono routing, status codes, zod body validation (`zValidator`), and the problem-document and not-found middlewares. A 404 is the value `ApiError.NotFound` with the handler's message.
- Edit of stores, the database client and the app entry points are not part of this model.
- The headless browser is not modelled. Playwright's navigation, viewport, headers and DOM script removal are one page-load outcome per product. A `newPage` failure is folded into that outcome.
- The language model call is a parameter (`generate`), and so are `JSON.parse` and `parseFloat`. The model's API key and model name only matter through `Scheduler.Start`.
- `Scraper.ScrapeProduct` has a precondition that the source does not have: the product is still in the catalog. The run scrapes a snapshot of the catalog taken at its start, and the model does not add or remove products during a run.
- `Scraper.Decide` models a failing `addPriceHistory` call as a thrown error with no write. The source file imports an `addPriceHistory` that `add-price-history.ts` does not export. The model records the price with the body of the POST handler, `Catalog.AddPriceHistory`.
- Cron scheduling, signal handlers, process exit, the 5-second pause between products, the logger, and the durations from `Date.now` are left out. The reports `Completed`, `Failed` and `Skipped` stand for the log lines.
- Numbers are exact reals, not IEEE doubles: no rounding, no Infinity. NaN is modelled from `parseFloat` in the extractor and from `z.coerce.number` in `paginationSchema` (a `JsNumber` that is `NaN` is rejected by `ParsePagination`). The NaN that `parseInt` gives in the three list endpoints is not modelled; see the next two lines.
- Stores.ListStores: requires a page size of at least 1. A page size of 0 or one that `parseInt` cannot read makes JavaScript divide by zero or by NaN, which is not modelled. A negative page size, which JavaScript does run (a slice such as `slice(0, -5)` and a negative `Math.ceil`), is excluded too. The same holds for ListProducts and ListPriceHistories.
- Query strings are modelled after `parseInt`: an absent or empty value is `None`, a value `parseInt` reads is that integer. A value `parseInt` cannot read (NaN) is not modelled. For the page number JavaScript then returns an empty page with `pageNumber: null`; for the page size, see the line above.
- Pagination.CreatePage: is modelled for integer page numbers and sizes only. `paginationSchema` accepts non-integer numbers such as a page size of 2.5, so `ParsePagination`'s real results do not feed `CreatePage` in the model. Neither function has a caller in the source.
- `toLowerCase` is modelled for ASCII letters only.
- Extractor.Truncated: strings are sequences of Unicode scalar values, while JavaScript's `slice(0, 15000)` and `trim` count UTF-16 code units. For page text with characters outside the Basic Multilingual Plane the 15000 cut differs: the source may cut a surrogate pair in half and counts such a character as two.
- `edit-product.ts` and `add-store.ts` read the request body without validation. The model gives the body's `name`, `url` and `currency` their declared types; bodies with missing or mistyped fields are not modelled.
- `add-product.ts` and `add-price-history.ts` validate against `productSchema` and `priceHistorySchema`, which `product.ts` does not export. The schemas are not part of this model. `Products.Created` carries no cached price on the assumption that the schema drops keys it does not list.
- A parsed `error` field that is not a string is not modelled. The model reads it as a string or absent.
- Generated uuids and the clock are parameters. `AddProduct` requires its id to be unused, as a version-7 uuid is.
- `Products.PriceChangePercentage`: its contract only covers the no-prior-price case. The formula's meaning is stated by the lemmas `PriceChangeScales` and `PriceChangeSign`.
