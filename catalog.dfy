/**
 * The rows of the buy screen's stock catalog and the lookups the screen
 * performs on them (Frontend/myapp/src/BuyStocks.jsx).
 */
module Catalog {

  import opened Wrappers

  /** One catalog row. `price` is in integer cents. */
  datatype Stock = Stock(id: int, symbol: string, name: string, price: int, change: string, available: int)

  /** The ids of all rows of a catalog. */
  function Ids(stocks: seq<Stock>): (ids: set<int>) {
    set i | 0 <= i < |stocks| :: stocks[i].id
  }

  /** No two rows share an id (true of the catalog the screen loads). */
  predicate UniqueIds(stocks: seq<Stock>) {
    forall i, j :: 0 <= i < j < |stocks| ==> stocks[i].id != stocks[j].id
  }

  /** `stocks.find(s => s.id === id)`: the first row carrying `id`, if any. */
  function Find(stocks: seq<Stock>, id: int): (r: Option<Stock>)
    ensures r.None? <==> id !in Ids(stocks)
    ensures r.Some? ==>
      exists i :: 0 <= i < |stocks| && stocks[i] == r.value && stocks[i].id == id &&
        forall j :: 0 <= j < i ==> stocks[j].id != id
  {
    if stocks == [] then None
    else if stocks[0].id == id then Some(stocks[0])
    else
      var r := Find(stocks[1..], id);
      assert Ids(stocks) == {stocks[0].id} + Ids(stocks[1..]) by {
        forall x | x in Ids(stocks) ensures x in {stocks[0].id} + Ids(stocks[1..]) {
          var i :| 0 <= i < |stocks| && stocks[i].id == x;
          if i > 0 { assert stocks[1..][i - 1].id == x; }
        }
      }
      r
  }
}
