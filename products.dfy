/** Products and their price history: the in-memory `products` and
    `priceHistories` arrays (src/features/products/product.ts), the handlers
    that change them, and the rule that keeps each product's cached price in
    step with its history. */
module Products {
  import opened Common
  import Stores

  datatype Currency = PEN | USD

  /** Timestamps are milliseconds since the epoch. */
  datatype Product = Product(
    storeId: string,
    productId: string,
    name: string,
    url: string,
    currentPrice: Option<real>,
    priceChangePercentage: Option<real>,
    lastUpdated: Option<int>,
    currency: Currency)

  datatype PriceHistory = PriceHistory(productId: string, priceHistoryId: string, timestamp: int, price: real)

  /** The body POST /products accepts: a product without id and price fields. */
  datatype NewProduct = NewProduct(storeId: string, name: string, url: string, currency: Currency)

  /** Position of the first product with the given id (`products.find`). */
  function ProductIndex(products: seq<Product>, productId: string): Option<nat> {
    FindIndex(products, (p: Product) => p.productId == productId)
  }

  function ProductNotFound(productId: string): ApiError {
    NotFound("Product " + productId + " not found")
  }

  /** The percent-change rule: relative to a prior price that is present and
      positive, and 0 otherwise. */
  function PriceChangePercentage(prior: Option<real>, price: real): (pct: real)
    ensures (prior.None? || prior.value <= 0.0) ==> pct == 0.0
  {
    if prior.Some? && prior.value > 0.0 then (price - prior.value) / prior.value * 100.0 else 0.0
  }

  /** From a positive prior price, growing by the percentage gives the new price. */
  lemma PriceChangeScales(prior: real, price: real)
    requires prior > 0.0
    ensures prior * (1.0 + PriceChangePercentage(Some(prior), price) / 100.0) == price
  {
    var pct := PriceChangePercentage(Some(prior), price);
    assert pct == (price - prior) / prior * 100.0;
    assert pct / 100.0 == (price - prior) / prior;
  }

  /** With a positive prior price the change is positive, zero or negative as
      the price rises, stays or falls. */
  lemma PriceChangeSign(prior: real, price: real)
    requires prior > 0.0
    ensures PriceChangePercentage(Some(prior), price) > 0.0 <==> price > prior
    ensures PriceChangePercentage(Some(prior), price) == 0.0 <==> price == prior
  {
    var pct := PriceChangePercentage(Some(prior), price);
    PriceChangeScales(prior, price);
    assert price - prior == prior * pct / 100.0;
    if pct > 0.0 {
      assert prior * pct > 0.0;
    } else if pct < 0.0 {
      assert prior * (-pct) > 0.0;
    }
  }

  /** The worked cases: 100 to 150 is +50 %, 200 to 150 is -25 %, and a first
      price is 0 %. */
  lemma PriceChangeExamples()
    ensures PriceChangePercentage(Some(100.0), 150.0) == 50.0
    ensures PriceChangePercentage(Some(200.0), 150.0) == -25.0
    ensures PriceChangePercentage(None, 150.0) == 0.0
    ensures PriceChangePercentage(Some(0.0), 150.0) == 0.0
  {
  }

  /** Selects the history rows of one product. */
  function IsFor(productId: string): PriceHistory -> bool {
    (h: PriceHistory) => h.productId == productId
  }

  /** The history of one product, in insertion order. */
  function HistoryOf(histories: seq<PriceHistory>, productId: string): seq<PriceHistory> {
    Filter(histories, IsFor(productId))
  }

  /** A product's cached fields agree with its history rows: no history means
      no cached price; otherwise the cache holds the last row's price and
      timestamp and the change from the row before it. */
  predicate CacheAgrees(p: Product, rows: seq<PriceHistory>) {
    if rows == [] then
      p.currentPrice.None? && p.priceChangePercentage.None? && p.lastUpdated.None?
    else
      var last := rows[|rows| - 1];
      var prior := if |rows| >= 2 then Some(rows[|rows| - 2].price) else None;
      && p.currentPrice == Some(last.price)
      && p.lastUpdated == Some(last.timestamp)
      && p.priceChangePercentage == Some(PriceChangePercentage(prior, last.price))
  }

  predicate IdsUnique(products: seq<Product>) {
    forall i, j :: 0 <= i < j < |products| ==> products[i].productId != products[j].productId
  }

  predicate HasProduct(products: seq<Product>, productId: string) {
    exists i :: 0 <= i < |products| && products[i].productId == productId
  }

  /** Every history row belongs to a product. */
  predicate RowsOwned(products: seq<Product>, histories: seq<PriceHistory>) {
    forall h :: h in histories ==> HasProduct(products, h.productId)
  }

  /** Every product's cache agrees with its rows. */
  predicate CachesAgree(products: seq<Product>, histories: seq<PriceHistory>) {
    forall i :: 0 <= i < |products| ==> CacheAgrees(products[i], HistoryOf(histories, products[i].productId))
  }

  /** The consistency of the two arrays: product ids are unique, every history
      row belongs to a product, and every product's cache agrees with its rows. */
  predicate CatalogInvariant(products: seq<Product>, histories: seq<PriceHistory>) {
    IdsUnique(products) && RowsOwned(products, histories) && CachesAgree(products, histories)
  }

  /** With unique ids, looking a product's id up finds that very product. */
  lemma IndexOfUniqueId(products: seq<Product>, k: nat)
    requires IdsUnique(products) && k < |products|
    ensures ProductIndex(products, products[k].productId) == Some(k)
  {
    var r := ProductIndex(products, products[k].productId);
    assert r.Some? ==> products[r.value].productId == products[k].productId;
  }

  /** The product after a price is recorded for it: only the three cached
      fields change. */
  function Recorded(p: Product, entry: PriceHistory): (q: Product)
    ensures q.storeId == p.storeId && q.productId == p.productId && q.name == p.name
    ensures q.url == p.url && q.currency == p.currency
    ensures q.currentPrice == Some(entry.price) && q.lastUpdated == Some(entry.timestamp)
    ensures q.priceChangePercentage == Some(PriceChangePercentage(p.currentPrice, entry.price))
  {
    p.(priceChangePercentage := Some(PriceChangePercentage(p.currentPrice, entry.price)),
       currentPrice := Some(entry.price),
       lastUpdated := Some(entry.timestamp))
  }

  /** The product after PUT /products/:productId: only name, url and currency change. */
  function Edited(p: Product, name: string, url: string, currency: Currency): (q: Product)
    ensures q.name == name && q.url == url && q.currency == currency
    ensures q.productId == p.productId && q.storeId == p.storeId
    ensures q.currentPrice == p.currentPrice && q.priceChangePercentage == p.priceChangePercentage
    ensures q.lastUpdated == p.lastUpdated
  {
    p.(name := name, url := url, currency := currency)
  }

  /** The product POST /products creates: the request's fields, the generated
      id, no cached price. */
  function Created(input: NewProduct, productId: string): (p: Product)
    ensures p.storeId == input.storeId && p.name == input.name && p.url == input.url
    ensures p.currency == input.currency && p.productId == productId
    ensures p.currentPrice.None? && p.priceChangePercentage.None? && p.lastUpdated.None?
  {
    Product(input.storeId, productId, input.name, input.url, None, None, None, input.currency)
  }

  /** A row appended to the history lands at the end of its own product's
      history and leaves every other product's history as it was. */
  lemma HistoryOfAppend(histories: seq<PriceHistory>, entry: PriceHistory, productId: string)
    ensures HistoryOf(histories + [entry], productId) ==
      HistoryOf(histories, productId) + (if entry.productId == productId then [entry] else [])
  {
    FilterAppend(histories, [entry], IsFor(productId));
    assert Filter([entry], IsFor(productId)) == (if entry.productId == productId then [entry] else []) by {
      assert [entry][1..] == [];
    }
  }

  /** Recording a price changes no product id. */
  lemma RecordKeepsIds(products: seq<Product>, histories: seq<PriceHistory>, i: nat, entry: PriceHistory)
    requires CatalogInvariant(products, histories)
    requires i < |products| && entry.productId == products[i].productId
    ensures var products' := products[i := Recorded(products[i], entry)];
      IdsUnique(products') && RowsOwned(products', histories + [entry])
  {
    var products', histories' := products[i := Recorded(products[i], entry)], histories + [entry];
    forall j, k | 0 <= j < k < |products'|
      ensures products'[j].productId != products'[k].productId
    {
      assert products'[j].productId == products[j].productId;
      assert products'[k].productId == products[k].productId;
    }
    forall h | h in histories'
      ensures HasProduct(products', h.productId)
    {
      if h in histories {
        var k :| 0 <= k < |products| && products[k].productId == h.productId;
        assert products'[k].productId == h.productId;
      } else {
        assert products'[i].productId == h.productId;
      }
    }
  }

  /** The heart of the recorder: if a product's cache agrees with its rows,
      the recorded product agrees with those rows plus the new one. */
  lemma RecordedCacheAgrees(p: Product, rows: seq<PriceHistory>, entry: PriceHistory)
    requires CacheAgrees(p, rows)
    ensures CacheAgrees(Recorded(p, entry), rows + [entry])
  {
    var rows' := rows + [entry];
    assert rows'[|rows'| - 1] == entry;
    if |rows'| >= 2 {
      assert rows'[|rows'| - 2] == rows[|rows| - 1];
    }
  }

  /** After a price is recorded for product `i`, product `j`'s cache agrees
      with its history: the recorded product's with the appended row, every
      other product's as before. */
  lemma RecordKeepsCache(products: seq<Product>, histories: seq<PriceHistory>, i: nat, entry: PriceHistory, j: nat)
    requires IdsUnique(products) && CachesAgree(products, histories)
    requires i < |products| && entry.productId == products[i].productId && j < |products|
    ensures CacheAgrees(products[i := Recorded(products[i], entry)][j],
                        HistoryOf(histories + [entry], products[j].productId))
  {
    var id := products[j].productId;
    HistoryOfAppend(histories, entry, id);
    if j == i {
      RecordedCacheAgrees(products[i], HistoryOf(histories, id), entry);
    } else {
      assert products[i].productId != id;
      assert CacheAgrees(products[j], HistoryOf(histories, id));
    }
  }

  /** Recording a price for an existing product keeps the catalog consistent:
      the product's cache then agrees with the appended row. */
  lemma RecordKeepsInvariant(products: seq<Product>, histories: seq<PriceHistory>, i: nat, entry: PriceHistory)
    requires CatalogInvariant(products, histories)
    requires i < |products| && entry.productId == products[i].productId
    ensures CatalogInvariant(products[i := Recorded(products[i], entry)], histories + [entry])
  {
    var products' := products[i := Recorded(products[i], entry)];
    RecordKeepsIds(products, histories, i, entry);
    forall j | 0 <= j < |products'|
      ensures CacheAgrees(products'[j], HistoryOf(histories + [entry], products'[j].productId))
    {
      RecordKeepsCache(products, histories, i, entry, j);
    }
  }

  /** Editing a product's descriptive fields keeps the catalog consistent. */
  lemma EditKeepsInvariant(products: seq<Product>, histories: seq<PriceHistory>, i: nat,
                           name: string, url: string, currency: Currency)
    requires CatalogInvariant(products, histories) && i < |products|
    ensures CatalogInvariant(products[i := Edited(products[i], name, url, currency)], histories)
  {
    var products' := products[i := Edited(products[i], name, url, currency)];
    assert IdsUnique(products') by {
      forall j, k | 0 <= j < k < |products'|
        ensures products'[j].productId != products'[k].productId
      {
        assert products'[j].productId == products[j].productId;
        assert products'[k].productId == products[k].productId;
      }
    }
    forall h | h in histories
      ensures HasProduct(products', h.productId)
    {
      var k :| 0 <= k < |products| && products[k].productId == h.productId;
      assert products'[k].productId == h.productId;
    }
    forall j | 0 <= j < |products'|
      ensures CacheAgrees(products'[j], HistoryOf(histories, products'[j].productId))
    {
      assert CacheAgrees(products[j], HistoryOf(histories, products[j].productId));
    }
  }

  /** Adding a product under an unused id keeps the catalog consistent: it
      has no history and no cached price. */
  lemma CreateKeepsInvariant(products: seq<Product>, histories: seq<PriceHistory>, p: Product)
    requires CatalogInvariant(products, histories)
    requires forall i :: 0 <= i < |products| ==> products[i].productId != p.productId
    requires p.currentPrice.None? && p.priceChangePercentage.None? && p.lastUpdated.None?
    ensures CatalogInvariant(products + [p], histories)
  {
    var products' := products + [p];
    forall h | h in histories
      ensures HasProduct(products', h.productId)
    {
      var k :| 0 <= k < |products| && products[k].productId == h.productId;
      assert products'[k].productId == h.productId;
    }
    assert HistoryOf(histories, p.productId) == [] by {
      forall n | 0 <= n < |histories| ensures !IsFor(p.productId)(histories[n]) {
        assert histories[n] in histories;
        var k :| 0 <= k < |products| && products[k].productId == histories[n].productId;
      }
      FilterKeepsNone(histories, IsFor(p.productId));
    }
    forall j | 0 <= j < |products'|
      ensures CacheAgrees(products'[j], HistoryOf(histories, products'[j].productId))
    {
      if j < |products| {
        assert products'[j] == products[j];
      }
    }
  }

  /** The global `products` and `priceHistories` arrays. */
  class Catalog {
    var products: seq<Product>
    var priceHistories: seq<PriceHistory>

    ghost predicate Valid()
      reads this
    {
      CatalogInvariant(products, priceHistories)
    }

    constructor ()
      ensures Valid() && products == [] && priceHistories == []
    {
      products := [];
      priceHistories := [];
    }

    /** POST /products/:productId/prices: look the product up, append a history
        row with the generated id and the current time, then rewrite the
        product's cached price, percent change and last-update time. */
    method AddPriceHistory(productId: string, price: real, freshId: string, now: int)
      returns (r: Result<PriceHistory, ApiError>)
      requires Valid()
      modifies this
      ensures Valid()
      ensures ProductIndex(old(products), productId).None? ==>
        && r == Err(ProductNotFound(productId))
        && products == old(products) && priceHistories == old(priceHistories)
      ensures ProductIndex(old(products), productId).Some? ==>
        var i := ProductIndex(old(products), productId).value;
        && r == Ok(PriceHistory(productId, freshId, now, price))
        && priceHistories == old(priceHistories) + [r.value]
        && products == old(products)[i := Recorded(old(products)[i], r.value)]
    {
      var found := ProductIndex(products, productId);
      if found.None? {
        return Err(ProductNotFound(productId));
      }
      var i := found.value;
      var entry := PriceHistory(productId, freshId, now, price);
      RecordKeepsInvariant(products, priceHistories, i, entry);
      priceHistories := priceHistories + [entry];
      var product := products[i];
      product := product.(priceChangePercentage := Some(PriceChangePercentage(product.currentPrice, price)));
      product := product.(currentPrice := Some(price));
      product := product.(lastUpdated := Some(entry.timestamp));
      products := products[i := product];
      r := Ok(entry);
    }

    /** POST /products: the store must exist; the new product takes the
        request's fields and the generated id and is appended. */
    method AddProduct(registry: Stores.StoreRegistry, input: NewProduct, freshId: string)
      returns (r: Result<Product, ApiError>)
      requires Valid()
      requires forall i :: 0 <= i < |products| ==> products[i].productId != freshId
      modifies this
      ensures Valid()
      ensures Stores.StoreIndex(registry.stores, input.storeId).None? ==>
        && r == Err(Stores.StoreNotFound(input.storeId))
        && products == old(products) && priceHistories == old(priceHistories)
      ensures Stores.StoreIndex(registry.stores, input.storeId).Some? ==>
        && r == Ok(Created(input, freshId))
        && products == old(products) + [r.value] && priceHistories == old(priceHistories)
    {
      if Stores.StoreIndex(registry.stores, input.storeId).None? {
        return Err(Stores.StoreNotFound(input.storeId));
      }
      var product := Created(input, freshId);
      CreateKeepsInvariant(products, priceHistories, product);
      products := products + [product];
      r := Ok(product);
    }

    /** PUT /products/:productId: overwrite name, url and currency of the
        product in place and return it. */
    method EditProduct(productId: string, name: string, url: string, currency: Currency)
      returns (r: Result<Product, ApiError>)
      requires Valid()
      modifies this
      ensures Valid()
      ensures priceHistories == old(priceHistories)
      ensures ProductIndex(old(products), productId).None? ==>
        r == Err(ProductNotFound(productId)) && products == old(products)
      ensures ProductIndex(old(products), productId).Some? ==>
        var i := ProductIndex(old(products), productId).value;
        && products == old(products)[i := Edited(old(products)[i], name, url, currency)]
        && r == Ok(products[i])
    {
      var found := ProductIndex(products, productId);
      if found.None? {
        return Err(ProductNotFound(productId));
      }
      var i := found.value;
      EditKeepsInvariant(products, priceHistories, i, name, url, currency);
      var product := products[i];
      product := product.(name := name);
      product := product.(url := url);
      product := product.(currency := currency);
      products := products[i := product];
      r := Ok(product);
    }
  }
}
