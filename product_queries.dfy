/** The read-only product endpoints: get one product, list products, and list
    one product's price history. */
module ProductQueries {
  import opened Common
  import opened Pagination
  import opened Products

  /** GET /products/:productId: the first product with that id, or 404. */
  function GetProduct(products: seq<Product>, productId: string): (r: Result<Product, ApiError>)
    ensures r.Ok? <==> HasProduct(products, productId)
    ensures r.Ok? ==> r.value.productId == productId
    ensures r.Ok? ==> exists i :: 0 <= i < |products| && products[i] == r.value &&
                                 forall j :: 0 <= j < i ==> products[j].productId != productId
    ensures r.Err? ==> r.error == ProductNotFound(productId)
  {
    match ProductIndex(products, productId)
    case None => Err(ProductNotFound(productId))
    case Some(i) => Ok(products[i])
  }

  /** A product added under an unused id is what GET returns for that id. */
  lemma CreatedIsFound(products: seq<Product>, p: Product)
    requires forall i :: 0 <= i < |products| ==> products[i].productId != p.productId
    ensures GetProduct(products + [p], p.productId) == Ok(p)
  {
    assert (products + [p])[|products|] == p;
  }

  /** The query string parameters of GET /products after `parseInt`; absent
      ones take the defaults 1 and 10. */
  datatype ProductQuery = ProductQuery(
    pageNumber: Option<int>, pageSize: Option<int>, name: Option<string>, storeId: Option<string>)

  /** The name filter: the name contains the query, ignoring case. */
  function ByName(query: string): Product -> bool {
    (p: Product) => NameMatches(p.name, query)
  }

  /** The storeId filter: exact equality. */
  function ByStore(storeId: string): Product -> bool {
    (p: Product) => p.storeId == storeId
  }

  /** Both filters, each only when its query parameter is truthy. */
  function SelectedBy(name: Option<string>, storeId: Option<string>): Product -> bool {
    (p: Product) =>
      && (Truthy(name) ==> NameMatches(p.name, name.value))
      && (Truthy(storeId) ==> p.storeId == storeId.value)
  }

  /** The products a list request keeps: the name filter, when given, then the
      storeId filter, when given. */
  function ProductsMatching(products: seq<Product>, name: Option<string>, storeId: Option<string>): (r: seq<Product>)
    ensures forall p :: p in r <==> p in products && SelectedBy(name, storeId)(p)
    ensures !Truthy(name) && !Truthy(storeId) ==> r == products
  {
    var byName := if Truthy(name) then Filter(products, ByName(name.value)) else products;
    if Truthy(storeId) then Filter(byName, ByStore(storeId.value)) else byName
  }

  /** The two filters act as one order-preserving filter by their conjunction. */
  lemma ProductsMatchingIsOneFilter(products: seq<Product>, name: Option<string>, storeId: Option<string>)
    ensures ProductsMatching(products, name, storeId) == Filter(products, SelectedBy(name, storeId))
  {
    var both := SelectedBy(name, storeId);
    if Truthy(name) && Truthy(storeId) {
      FilterTwice(products, ByName(name.value), ByStore(storeId.value), both);
    } else if Truthy(name) {
      FilterSamePredicate(products, ByName(name.value), both);
    } else if Truthy(storeId) {
      FilterSamePredicate(products, ByStore(storeId.value), both);
    } else {
      FilterKeepsAll(products, both);
    }
  }

  /** GET /products: page `pn` of size `pz` of the matching products, that
      is the slice `[(pn - 1) * pz, (pn - 1) * pz + pz)` of them, clipped. */
  function ListProducts(products: seq<Product>, q: ProductQuery): (p: Page<Product>)
    requires PageSizeOr(q.pageSize) >= 1
    ensures p.pageNumber == PageNumberOr(q.pageNumber) && p.pageSize == PageSizeOr(q.pageSize)
    ensures q.pageNumber.None? ==> p.pageNumber == 1
    ensures q.pageSize.None? ==> p.pageSize == 10
    ensures p.totalCount == |ProductsMatching(products, q.name, q.storeId)|
    ensures IsPageCount(p.totalPages, p.totalCount, p.pageSize)
    ensures |p.items| <= p.pageSize
    ensures p.items == JsSlice(ProductsMatching(products, q.name, q.storeId),
      PageStart(p.pageNumber, p.pageSize), PageStart(p.pageNumber, p.pageSize) + p.pageSize)
  {
    PageOf(ProductsMatching(products, q.name, q.storeId), PageNumberOr(q.pageNumber), PageSizeOr(q.pageSize))
  }

  /** GET /products/:productId/prices: 404 for an unknown product, otherwise
      page `pn` of size `pz` of that product's history rows. */
  function ListPriceHistories(products: seq<Product>, histories: seq<PriceHistory>, productId: string,
                              pageNumber: Option<int>, pageSize: Option<int>): (r: Result<Page<PriceHistory>, ApiError>)
    requires PageSizeOr(pageSize) >= 1
    ensures r.Err? <==> !HasProduct(products, productId)
    ensures r.Err? ==> r.error == ProductNotFound(productId)
    ensures r.Ok? ==> r.value.pageNumber == PageNumberOr(pageNumber) && r.value.pageSize == PageSizeOr(pageSize)
    ensures r.Ok? ==> r.value.totalCount == |HistoryOf(histories, productId)|
    ensures r.Ok? ==> IsPageCount(r.value.totalPages, r.value.totalCount, r.value.pageSize)
    ensures r.Ok? ==> |r.value.items| <= r.value.pageSize
    ensures r.Ok? ==> forall i :: 0 <= i < |r.value.items| ==>
      r.value.items[i] in histories && r.value.items[i].productId == productId
    ensures r.Ok? ==> r.value.items == JsSlice(HistoryOf(histories, productId),
      PageStart(r.value.pageNumber, r.value.pageSize), PageStart(r.value.pageNumber, r.value.pageSize) + r.value.pageSize)
  {
    if ProductIndex(products, productId).None? then
      Err(ProductNotFound(productId))
    else
      Ok(PageOf(HistoryOf(histories, productId), PageNumberOr(pageNumber), PageSizeOr(pageSize)))
  }

  /** A product without history rows lists an empty page and no pages,
      whatever page is asked for. */
  lemma NoHistoryEmptyPage(products: seq<Product>, histories: seq<PriceHistory>, productId: string,
                           pageNumber: Option<int>, pageSize: Option<int>)
    requires PageSizeOr(pageSize) >= 1
    requires HasProduct(products, productId)
    requires forall h :: h in histories ==> h.productId != productId
    ensures var r := ListPriceHistories(products, histories, productId, pageNumber, pageSize);
      r.Ok? && r.value.items == [] && r.value.totalCount == 0 && r.value.totalPages == 0
  {
    forall n | 0 <= n < |histories| ensures !IsFor(productId)(histories[n]) {
      assert histories[n] in histories;
    }
    FilterKeepsNone(histories, IsFor(productId));
    CeilDivZero(0, PageSizeOr(pageSize));
  }

  /** A name query no product name contains gives an empty page. */
  lemma NoNameMatchEmptyPage(products: seq<Product>, q: ProductQuery)
    requires PageSizeOr(q.pageSize) >= 1 && Truthy(q.name)
    requires forall p :: p in products ==> !NameMatches(p.name, q.name.value)
    ensures ListProducts(products, q).items == [] && ListProducts(products, q).totalCount == 0
  {
    ProductsMatchingIsOneFilter(products, q.name, q.storeId);
    forall n | 0 <= n < |products| ensures !SelectedBy(q.name, q.storeId)(products[n]) {
      assert products[n] in products;
    }
    FilterKeepsNone(products, SelectedBy(q.name, q.storeId));
  }
}
