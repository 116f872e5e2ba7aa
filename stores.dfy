/** Stores: the in-memory `stores` array (src/features/stores/store.ts) and the
    add, get and list handlers over it. */
module Stores {
  import opened Common
  import opened Pagination

  datatype Store = Store(storeId: string, name: string, url: string)

  /** Position of the first store with the given id (`stores.find`). */
  function StoreIndex(stores: seq<Store>, storeId: string): Option<nat> {
    FindIndex(stores, (s: Store) => s.storeId == storeId)
  }

  function StoreNotFound(storeId: string): ApiError {
    NotFound("Store " + storeId + " not found")
  }

  /** GET /stores/:storeId: the first store with that id, or 404. */
  function GetStore(stores: seq<Store>, storeId: string): (r: Result<Store, ApiError>)
    ensures r.Ok? <==> exists i :: 0 <= i < |stores| && stores[i].storeId == storeId
    ensures r.Ok? ==> r.value.storeId == storeId && r.value in stores
    ensures r.Ok? ==> exists i :: 0 <= i < |stores| && stores[i] == r.value &&
                                 forall j :: 0 <= j < i ==> stores[j].storeId != storeId
    ensures r.Err? ==> r.error == StoreNotFound(storeId)
  {
    match StoreIndex(stores, storeId)
    case None => Err(StoreNotFound(storeId))
    case Some(i) => Ok(stores[i])
  }

  /** The stores a list request keeps: all of them without a (truthy) name
      query, otherwise those whose name contains the query, ignoring case. */
  function StoresMatching(stores: seq<Store>, name: Option<string>): (r: seq<Store>)
    ensures !Truthy(name) ==> r == stores
    ensures Truthy(name) ==> forall s :: s in r <==> s in stores && NameMatches(s.name, name.value)
  {
    if Truthy(name) then Filter(stores, (s: Store) => NameMatches(s.name, name.value)) else stores
  }

  /** GET /stores: page `pn` of size `pz` of the matching stores, that is the
      slice `[(pn - 1) * pz, (pn - 1) * pz + pz)` of them, clipped to their
      count; an absent page number or size takes the default 1 or 10. */
  function ListStores(stores: seq<Store>, name: Option<string>, pageNumber: Option<int>, pageSize: Option<int>)
    : (p: Page<Store>)
    requires PageSizeOr(pageSize) >= 1
    ensures p.pageNumber == PageNumberOr(pageNumber) && p.pageSize == PageSizeOr(pageSize)
    ensures pageNumber.None? ==> p.pageNumber == 1
    ensures pageSize.None? ==> p.pageSize == 10
    ensures p.totalCount == |StoresMatching(stores, name)|
    ensures IsPageCount(p.totalPages, p.totalCount, p.pageSize)
    ensures |p.items| <= p.pageSize
    ensures p.items == JsSlice(StoresMatching(stores, name),
      PageStart(p.pageNumber, p.pageSize), PageStart(p.pageNumber, p.pageSize) + p.pageSize)
  {
    PageOf(StoresMatching(stores, name), PageNumberOr(pageNumber), PageSizeOr(pageSize))
  }

  /** A name query that no store name contains gives an empty page. */
  lemma NoNameMatchEmptyStores(stores: seq<Store>, name: Option<string>, pageNumber: Option<int>, pageSize: Option<int>)
    requires PageSizeOr(pageSize) >= 1 && Truthy(name)
    requires forall s :: s in stores ==> !NameMatches(s.name, name.value)
    ensures ListStores(stores, name, pageNumber, pageSize).items == []
    ensures ListStores(stores, name, pageNumber, pageSize).totalCount == 0
  {
    var keep := (s: Store) => NameMatches(s.name, name.value);
    forall n | 0 <= n < |stores| ensures !keep(stores[n]) {
      assert stores[n] in stores;
    }
    FilterKeepsNone(stores, keep);
  }

  /** The global `stores` array, appended to by POST /stores. */
  class StoreRegistry {
    var stores: seq<Store>

    constructor ()
      ensures stores == []
    {
      stores := [];
    }

    /** POST /stores: append a store with the request's name and url and the
        id drawn from the generator. */
    method AddStore(name: string, url: string, freshId: string) returns (s: Store)
      modifies this
      ensures s == Store(freshId, name, url)
      ensures stores == old(stores) + [s]
    {
      s := Store(freshId, name, url);
      stores := stores + [s];
    }
  }

  /** A store added under an unused id is what GET returns for that id, and
      the stores that were there before are still found as before. */
  lemma AddThenGetStore(stores: seq<Store>, s: Store, storeId: string)
    requires forall i :: 0 <= i < |stores| ==> stores[i].storeId != s.storeId
    ensures GetStore(stores + [s], s.storeId) == Ok(s)
    ensures storeId != s.storeId ==> GetStore(stores + [s], storeId) == GetStore(stores, storeId)
  {
    var all := stores + [s];
    assert all[|stores|] == s;
    if storeId != s.storeId {
      var before, after := StoreIndex(stores, storeId), StoreIndex(all, storeId);
      if before.Some? {
        assert all[before.value] == stores[before.value];
      }
      if after.Some? {
        assert after.value < |stores|;
        assert all[after.value] == stores[after.value];
      }
    }
  }
}
