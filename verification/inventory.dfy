/**
 * The client-side stock map of the inventory context: product id to the
 * last stock figure fetched from the inventory API. A key that was never
 * fetched reads as 0.
 */
module Inventory {
  import opened Js

  type Stock = map<string, int>

  /** What the inventory API answered to a GET (the network call itself is not modelled). */
  datatype FetchResult =
    | FetchThrew
    | FetchNotOk
    | FetchOk(stock: Option<int>)   // `data.stock`; None when the body has none

  /** What the inventory API answered to a PATCH. */
  datatype UpdateResult =
    | UpdateThrew
    | UpdateNotOk
    | UpdateOk(newStock: int)

  /** `getStock`: the stored figure, 0 when the id is absent. */
  function GetStock(inv: Stock, id: string): (r: int)
    ensures id !in inv ==> r == 0
    ensures id in inv ==> r == inv[id]
  {
    if id in inv then inv[id] else 0
  }

  /** `hasFetchedStock`. */
  predicate HasFetched(inv: Stock, id: string) {
    id in inv
  }

  /** `checkStock`: the stock covers the requested quantity. */
  predicate CheckStock(inv: Stock, id: string, q: int): (r: bool)
    ensures id !in inv ==> (r <==> q <= 0)
    ensures id in inv ==> (r <==> inv[id] >= q)
  {
    GetStock(inv, id) >= q
  }

  /** `fetchStock`: the number the API reported, or 0 after any failure (`data.stock || 0`). */
  function FetchedValue(res: FetchResult): (n: int)
    ensures !res.FetchOk? || res.stock.None? ==> n == 0
    ensures res.FetchOk? && res.stock.Some? ==> n == res.stock.value
  {
    match res
    case FetchOk(Some(s)) => s
    case _ => 0
  }

  /** `refreshStock`: store the fetched figure under `id`, failures included (as 0). */
  function RefreshStock(inv: Stock, id: string, res: FetchResult): (r: Stock)
    ensures HasFetched(r, id) && GetStock(r, id) == FetchedValue(res)
    ensures forall k :: k != id ==> (k in r <==> k in inv) && (k in inv ==> r[k] == inv[k])
  {
    inv[id := FetchedValue(res)]
  }

  /**
   * `updateStock` (and `reduceStock`, which only wraps it): on an ok answer the
   * server's stock replaces the entry for `id` and the call reports true;
   * otherwise nothing changes and it reports false.
   */
  function UpdateStock(inv: Stock, id: string, res: UpdateResult): (r: (Stock, bool))
    ensures r.1 <==> res.UpdateOk?
    ensures res.UpdateOk? ==> r.0 == inv[id := res.newStock]
    ensures !res.UpdateOk? ==> r.0 == inv
  {
    match res
    case UpdateOk(n) => (inv[id := n], true)
    case _ => (inv, false)
  }

  // ---------------------------------------------------------------------
  // Properties
  // ---------------------------------------------------------------------

  /** A larger quantity passing the check means every smaller one passes too. */
  lemma CheckStockDownwardClosed(inv: Stock, id: string, q: int, q': int)
    requires q' <= q && CheckStock(inv, id, q)
    ensures CheckStock(inv, id, q')
  {
  }

  /** For an id never fetched the check passes exactly for quantities of at most 0. */
  lemma CheckStockUnfetched(inv: Stock, id: string, q: int)
    requires !HasFetched(inv, id)
    ensures CheckStock(inv, id, q) <==> q <= 0
  {
  }

  /** A failed refresh still records the id, with stock 0. */
  lemma RefreshFailureRecordsZero(inv: Stock, id: string, res: FetchResult)
    requires !res.FetchOk? || res.stock.None?
    ensures HasFetched(RefreshStock(inv, id, res), id)
    ensures GetStock(RefreshStock(inv, id, res), id) == 0
  {
  }
}
