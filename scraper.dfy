/** The scrape run (src/features/scraper/scraper.ts): visit every product's
    page, ask the extractor for a price, record a positive one, and report
    one result per product. The browser, the page loads, the model and the
    recorder's database write are outside code: a `World` value says what
    each of them does. */
module Scraper {
  import opened Common
  import opened Products
  import opened Extractor

  const FailedToExtractPrice: string := "Failed to extract price"

  /** `ScrapeResult`: the extracted price (or none) and the reason for a
      failure, tagged with the product and whether a price was recorded. */
  datatype ScrapeResult = ScrapeResult(productId: string, success: bool, price: Option<real>, error: Option<string>)

  /** What the outside world does during one run. The functions indexed by
      `k` answer for the `k`-th product of the run. */
  datatype World = World(
    launchFault: Option<ErrorValue>,             // what `chromium.launch` throws, if anything
    listFault: Option<ErrorValue>,               // what reading the product table throws, if anything
    load: nat -> string -> Outcome<string>,      // the visible text of the page at a url, or what loading it throws
    extract: nat -> string -> string -> ExtractedPrice,  // the extractor on a page text and a product name
    recordFault: nat -> Option<ErrorValue>,      // what the history write throws, if anything
    clock: nat -> int,                           // the time a recorded row is stamped with
    historyId: nat -> string)                    // the generated id of a recorded row

  /** The headless browser: whether it is open and how many pages it holds. */
  class Browser {
    var open: bool
    var openPages: nat

    constructor ()
      ensures open && openPages == 0
    {
      open := true;
      openPages := 0;
    }

    method NewPage()
      requires open
      modifies this
      ensures open && openPages == old(openPages) + 1
    {
      openPages := openPages + 1;
    }

    method ClosePage()
      requires openPages > 0
      modifies this
      ensures open == old(open) && openPages == old(openPages) - 1
    {
      openPages := openPages - 1;
    }

    /** Closing the browser closes the pages it still holds. */
    method Close()
      modifies this
      ensures !open && openPages == 0
    {
      open := false;
      openPages := 0;
    }
  }

  /** `fetchPageContent`: open a page, load the url, read its text, and close
      the page whatever the load did. */
  method FetchPageContent(url: string, browser: Browser, loaded: Outcome<string>) returns (r: Outcome<string>)
    requires browser.open
    modifies browser
    ensures r == loaded
    ensures browser.open && browser.openPages == old(browser.openPages)
  {
    browser.NewPage();
    r := loaded;
    browser.ClosePage();
  }

  /** `extracted.price !== null && extracted.price > 0`; NaN is not above zero. */
  predicate IsPositivePrice(e: ExtractedPrice) {
    e.price.Some? && e.price.value.Num? && e.price.value.value > 0.0
  }

  /** The extraction the running system performs: `extractPrice` asking a
      model whose reply for the `k`-th product is `generate(k)`. */
  function UsingExtractor(generate: nat -> string -> Outcome<string>,
                          jsonParse: string -> Outcome<ParsedReply>,
                          parseFloat: string -> JsNumber): nat -> string -> string -> ExtractedPrice
  {
    k => content => name => ExtractPrice(content, Some(name), generate(k), jsonParse, parseFloat)
  }

  /** What the extractor says about the `k`-th product's page text. */
  function Extraction(w: World, k: nat, product: Product, content: string): ExtractedPrice {
    w.extract(k)(content)(product.name)
  }

  /** How far the `k`-th product's visit got before any recording: the page
      load threw, or the extractor answered. */
  function Attempt(w: World, k: nat, product: Product): Outcome<ExtractedPrice> {
    match w.load(k)(product.url)
    case Threw(e) => Threw(e)
    case Returned(content) => Returned(Extraction(w, k, product, content))
  }

  /** The body of `scrapeProduct` after the extractor: succeed with a positive
      price unless the history write throws; otherwise fail with the thrown
      message or with the extractor's reason, defaulted. */
  function Decide(productId: string, attempt: Outcome<ExtractedPrice>, recordFault: Option<ErrorValue>): (r: ScrapeResult)
    ensures r.productId == productId
    ensures r.success <==> attempt.Returned? && IsPositivePrice(attempt.value) && recordFault.None?
    ensures r.success ==> r.price.Some? && r.price.value > 0.0 && r.error.None?
    ensures r.success ==> attempt.value.price == Some(Num(r.price.value))
    ensures !r.success ==> r.price.None? && r.error.Some?
    ensures attempt.Threw? ==> r.error == Some(ErrorMessage(attempt.thrown))
    ensures attempt.Returned? && IsPositivePrice(attempt.value) && recordFault.Some? ==>
      r.error == Some(ErrorMessage(recordFault.value))
    ensures attempt.Returned? && !IsPositivePrice(attempt.value) ==>
      r.error == Some(if Truthy(attempt.value.error) then attempt.value.error.value else FailedToExtractPrice)
  {
    match attempt
    case Threw(e) => ScrapeResult(productId, false, None, Some(ErrorMessage(e)))
    case Returned(extracted) =>
      if IsPositivePrice(extracted) then
        match recordFault
        case Some(e) => ScrapeResult(productId, false, None, Some(ErrorMessage(e)))
        case None => ScrapeResult(productId, true, Some(extracted.price.value.value), None)
      else
        ScrapeResult(productId, false, None,
          Some(if Truthy(extracted.error) then extracted.error.value else FailedToExtractPrice))
  }

  /** A failed result always carries a reason, and one with non-empty text
      unless it came from a thrown error. */
  lemma FailureHasReason(productId: string, attempt: Outcome<ExtractedPrice>, recordFault: Option<ErrorValue>)
    ensures var r := Decide(productId, attempt, recordFault);
      !r.success ==> r.error.Some? && (r.error.value != "" || attempt.Threw? || recordFault.Some?)
  {
    var r := Decide(productId, attempt, recordFault);
    if !r.success && attempt.Returned? && recordFault.None? {
      assert !IsPositivePrice(attempt.value);
      assert FailedToExtractPrice != "";
    }
  }

  /** A null, zero, negative or NaN price never succeeds, so never records. */
  lemma NonPositiveNeverRecords(productId: string, error: Option<string>, price: Option<JsNumber>, recordFault: Option<ErrorValue>)
    requires price.None? || price.value.NaN? || price.value.value <= 0.0
    ensures !Decide(productId, Returned(ExtractedPrice(price, error)), recordFault).success
  {
  }

  /** The result `scrapeProduct` reports for the `k`-th product of a run. */
  function ScrapeOutcome(w: World, k: nat, product: Product): ScrapeResult {
    Decide(product.productId, Attempt(w, k, product), w.recordFault(k))
  }

  /** With the real extractor wired in, a model reply without a brace span
      fails the product with the extractor's reason and records nothing. */
  lemma UnparsableReplyFails(generate: nat -> string -> Outcome<string>,
                             jsonParse: string -> Outcome<ParsedReply>,
                             parseFloat: string -> JsNumber,
                             w: World, k: nat, product: Product)
    requires w.extract == UsingExtractor(generate, jsonParse, parseFloat)
    requires w.load(k)(product.url).Returned?
    requires var reply := generate(k)(Prompt(w.load(k)(product.url).value, Some(product.name)));
      reply.Returned? && JsonText(reply.value).None?
    ensures ScrapeOutcome(w, k, product) == ScrapeResult(product.productId, false, None, Some(InvalidResponseFormat))
  {
    var content := w.load(k)(product.url).value;
    var x := Extraction(w, k, product, content);
    assert x == ExtractPrice(content, Some(product.name), generate(k), jsonParse, parseFloat);
    assert x == ExtractedPrice(None, Some(InvalidResponseFormat));
  }

  /** Both sequences list the same product ids in the same order. */
  predicate SameIds(a: seq<Product>, b: seq<Product>) {
    |a| == |b| && forall i :: 0 <= i < |a| ==> a[i].productId == b[i].productId
  }

  /** `scrapeProduct`: fetch, extract, and record the price only when it is
      positive; every failure, thrown or not, becomes a result. */
  method ScrapeProduct(db: Catalog, browser: Browser, w: World, k: nat, product: Product) returns (r: ScrapeResult)
    requires db.Valid() && browser.open
    requires HasProduct(db.products, product.productId)
    modifies db, browser
    ensures db.Valid() && browser.open && browser.openPages == old(browser.openPages)
    ensures r == ScrapeOutcome(w, k, product)
    ensures SameIds(old(db.products), db.products)
    ensures !r.success ==> db.products == old(db.products) && db.priceHistories == old(db.priceHistories)
    ensures r.success ==>
      var i := ProductIndex(old(db.products), product.productId).value;
      var entry := PriceHistory(product.productId, w.historyId(k), w.clock(k), r.price.value);
      && db.priceHistories == old(db.priceHistories) + [entry]
      && db.products == old(db.products)[i := Recorded(old(db.products)[i], entry)]
  {
    var fetched := FetchPageContent(product.url, browser, w.load(k)(product.url));
    var attempt: Outcome<ExtractedPrice> :=
      if fetched.Threw? then Threw(fetched.thrown) else Returned(Extraction(w, k, product, fetched.value));
    r := Decide(product.productId, attempt, w.recordFault(k));
    if r.success {
      var recorded := db.AddPriceHistory(product.productId, r.price.value, w.historyId(k), w.clock(k));
    }
  }

  /** The results of scraping the first `n` listed products, in order. */
  function RunResults(w: World, all: seq<Product>, n: nat): seq<ScrapeResult>
    requires n <= |all|
  {
    if n == 0 then [] else RunResults(w, all, n - 1) + [ScrapeOutcome(w, n - 1, all[n - 1])]
  }

  /** One result per listed product, each for the product at its position. */
  lemma {:induction false} RunResultsAt(w: World, all: seq<Product>, n: nat)
    requires n <= |all|
    ensures |RunResults(w, all, n)| == n
    ensures forall i :: 0 <= i < n ==> RunResults(w, all, n)[i] == ScrapeOutcome(w, i, all[i])
    ensures forall i :: 0 <= i < n ==> RunResults(w, all, n)[i].productId == all[i].productId
  {
    if n > 0 {
      RunResultsAt(w, all, n - 1);
    }
  }

  /** The history row the `k`-th product of a run records: one exactly when
      its scrape succeeds, stamped with the run's clock and generated id. */
  function RunRow(w: World, k: nat, product: Product): Option<PriceHistory> {
    var r := ScrapeOutcome(w, k, product);
    if r.success then Some(PriceHistory(product.productId, w.historyId(k), w.clock(k), r.price.value)) else None
  }

  /** The rows the first `n` products of a run append, in order. */
  function RunRows(w: World, all: seq<Product>, n: nat): seq<PriceHistory>
    requires n <= |all|
  {
    if n == 0 then []
    else RunRows(w, all, n - 1) + (match RunRow(w, n - 1, all[n - 1]) case Some(e) => [e] case None => [])
  }

  /** The product list after the first `n` products of a run: each product
      that succeeded has its cache rewritten by its row. */
  function RunProducts(w: World, all: seq<Product>, n: nat): (ps: seq<Product>)
    requires n <= |all|
    ensures |ps| == |all|
  {
    if n == 0 then all
    else
      var ps := RunProducts(w, all, n - 1);
      match RunRow(w, n - 1, all[n - 1])
      case None => ps
      case Some(e) => ps[n - 1 := Recorded(ps[n - 1], e)]
  }

  /** After `n` products, product `i` has been rewritten by its own row when
      it is among the first `n` and succeeded, and is untouched otherwise. */
  lemma {:induction false} RunProductsAt(w: World, all: seq<Product>, n: nat)
    requires n <= |all|
    ensures forall i :: 0 <= i < |all| ==>
      RunProducts(w, all, n)[i] ==
        if i < n && RunRow(w, i, all[i]).Some? then Recorded(all[i], RunRow(w, i, all[i]).value) else all[i]
  {
    if n > 0 {
      RunProductsAt(w, all, n - 1);
    }
  }

  /** The rows a run appends are exactly the rows of its successful products. */
  lemma {:induction false} RunRowsAt(w: World, all: seq<Product>, n: nat)
    requires n <= |all|
    ensures forall i :: 0 <= i < n && RunRow(w, i, all[i]).Some? ==> RunRow(w, i, all[i]).value in RunRows(w, all, n)
    ensures forall e :: e in RunRows(w, all, n) ==> exists i :: 0 <= i < n && RunRow(w, i, all[i]) == Some(e)
  {
    if n > 0 {
      RunRowsAt(w, all, n - 1);
    }
  }

  /** What holds between products during a run: the catalog is consistent,
      `results` holds the results so far, and the catalog is the snapshot
      `all` with the first `|results|` products' rows recorded. */
  ghost predicate Scraping(db: Catalog, browser: Browser, w: World, all: seq<Product>, histories: seq<PriceHistory>,
                           results: seq<ScrapeResult>)
    reads db, browser
  {
    && db.Valid() && browser.open && browser.openPages == 0 && |results| <= |all|
    && results == RunResults(w, all, |results|)
    && db.products == RunProducts(w, all, |results|)
    && db.priceHistories == histories + RunRows(w, all, |results|)
  }

  /** The run's functions advance by one product exactly as one scrape
      changes the catalog: a failure leaves it alone, a success appends the
      product's row and rewrites that product. */
  lemma RunStep(w: World, all: seq<Product>, histories: seq<PriceHistory>, k: nat, r: ScrapeResult,
                products: seq<Product>, rows: seq<PriceHistory>, products': seq<Product>, rows': seq<PriceHistory>)
    requires k < |all| && r == ScrapeOutcome(w, k, all[k])
    requires products == RunProducts(w, all, k) && rows == histories + RunRows(w, all, k)
    requires !r.success ==> products' == products && rows' == rows
    requires r.success ==>
      var entry := PriceHistory(all[k].productId, w.historyId(k), w.clock(k), r.price.value);
      rows' == rows + [entry] && products' == products[k := Recorded(products[k], entry)]
    ensures products' == RunProducts(w, all, k + 1)
    ensures rows' == histories + RunRows(w, all, k + 1)
  {
    if r.success {
      assert histories + RunRows(w, all, k) + [RunRow(w, k, all[k]).value] == histories + RunRows(w, all, k + 1);
    }
  }

  /** One turn of the loop of `scrapeProducts`: scrape the next listed product
      and append its result. */
  method ScrapeNext(db: Catalog, browser: Browser, w: World, all: seq<Product>, ghost histories: seq<PriceHistory>,
                    results: seq<ScrapeResult>)
    returns (results': seq<ScrapeResult>)
    requires Scraping(db, browser, w, all, histories, results) && |results| < |all|
    modifies db, browser
    ensures Scraping(db, browser, w, all, histories, results') && |results'| == |results| + 1
  {
    var k := |results|;
    ghost var products, rows := db.products, db.priceHistories;
    RunProductsAt(w, all, k);
    assert products[k] == all[k];
    IndexOfUniqueId(products, k);
    var r := ScrapeProduct(db, browser, w, k, all[k]);
    RunStep(w, all, histories, k, r, products, rows, db.products, db.priceHistories);
    results' := results + [r];
  }

  /** The loop of `scrapeProducts`: scrape the listed products in order with
      one open browser, collecting one result each and recording each
      successful product's row. */
  method ScrapeAll(db: Catalog, browser: Browser, w: World, all: seq<Product>) returns (results: seq<ScrapeResult>)
    requires db.Valid() && browser.open && browser.openPages == 0
    requires all == db.products
    modifies db, browser
    ensures db.Valid() && browser.open && browser.openPages == 0
    ensures results == RunResults(w, all, |all|)
    ensures db.products == RunProducts(w, all, |all|)
    ensures db.priceHistories == old(db.priceHistories) + RunRows(w, all, |all|)
  {
    ghost var histories := db.priceHistories;
    results := [];
    while |results| < |all|
      invariant Scraping(db, browser, w, all, histories, results)
      decreases |all| - |results|
    {
      results := ScrapeNext(db, browser, w, all, histories, results);
    }
  }

  /** `scrapeProducts`: launch the browser, read the product list once, scrape
      the products one after another, and close the browser on every exit. */
  method ScrapeProducts(db: Catalog, w: World) returns (run: Outcome<seq<ScrapeResult>>, browser: Browser?)
    requires db.Valid()
    modifies db
    ensures db.Valid()
    ensures run.Returned? <==> w.launchFault.None? && w.listFault.None?
    ensures w.launchFault.Some? ==> run == Threw(w.launchFault.value) && browser == null
    ensures w.launchFault.None? ==> browser != null && fresh(browser) && !browser.open && browser.openPages == 0
    ensures w.launchFault.None? && w.listFault.Some? ==> run == Threw(w.listFault.value)
    ensures run.Threw? ==> db.products == old(db.products) && db.priceHistories == old(db.priceHistories)
    ensures SameIds(old(db.products), db.products)
    ensures run.Returned? ==>
      && run.value == RunResults(w, old(db.products), |old(db.products)|)
      && |run.value| == |old(db.products)|
      && (forall i :: 0 <= i < |run.value| ==> run.value[i] == ScrapeOutcome(w, i, old(db.products)[i]))
      && db.products == RunProducts(w, old(db.products), |old(db.products)|)
      && db.priceHistories == old(db.priceHistories) + RunRows(w, old(db.products), |old(db.products)|)
  {
    if w.launchFault.Some? {
      return Threw(w.launchFault.value), null;
    }
    var b := new Browser();
    browser := b;
    if w.listFault.Some? {
      b.Close();
      return Threw(w.listFault.value), b;
    }
    var all := db.products;
    var results := ScrapeAll(db, b, w, all);
    RunResultsAt(w, all, |all|);
    RunProductsAt(w, all, |all|);
    b.Close();
    run := Returned(results);
  }
}
