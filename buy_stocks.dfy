/**
 * The buy screen (Frontend/myapp/src/BuyStocks.jsx): a catalog with per-row
 * quantities, a local credit balance and a status message. A purchase
 * debits the balance, pushes it to the session store and lowers the row's
 * available count; it does not write to the session's ledger.
 */
module BuyStocks {

  import opened Wrappers
  import opened Catalog
  import opened AuthContext

  /** The status message; a purchase message keeps its parts instead of the formatted text. */
  datatype Message = Blank | Insufficient | Purchased(quantity: int, symbol: string, totalPrice: int) {
    /** The message's `type` field. */
    function Type(): (t: string) {
      match this
      case Blank => ""
      case Insufficient => "danger"
      case Purchased(_, _, _) => "success"
    }
  }

  function Max(a: int, b: int): (m: int) {
    if a < b then b else a
  }

  /** `quantities[stockId] || 1`: the row's quantity, where a missing (or zero) entry reads as 1. */
  function CurrentQuantity(quantities: map<int, int>, stockId: int): (q: int)
    ensures Truthy(q)
    ensures !(stockId in quantities && Truthy(quantities[stockId])) ==> q == 1
    ensures stockId in quantities && Truthy(quantities[stockId]) ==> q == quantities[stockId]
  {
    if stockId in quantities && Truthy(quantities[stockId]) then quantities[stockId] else 1
  }

  /** `Math.max(1, currentQty + change)`: the requested quantity, never below 1. */
  function RequestedQuantity(quantities: map<int, int>, stockId: int, change: int): (q: int)
    ensures q >= 1 && q >= CurrentQuantity(quantities, stockId) + change
    ensures q == 1 || q == CurrentQuantity(quantities, stockId) + change
  {
    Max(1, CurrentQuantity(quantities, stockId) + change)
  }

  /** The request overshoots the row's available count (the row is the first with that id). */
  predicate ExceedsAvailable(quantities: map<int, int>, stocks: seq<Stock>, stockId: int, change: int) {
    var stock := Find(stocks, stockId);
    stock.Some? && RequestedQuantity(quantities, stockId, change) > stock.value.available
  }

  /** The updater `handleQuantityChange` passes to `setQuantities`. */
  function NextQuantities(prev: map<int, int>, stocks: seq<Stock>, stockId: int, change: int): (r: map<int, int>)
    ensures forall k :: k != stockId ==> (k in r <==> k in prev)
    ensures forall k :: k != stockId && k in r ==> r[k] == prev[k]
    ensures ExceedsAvailable(prev, stocks, stockId, change) ==> r == prev
    ensures !ExceedsAvailable(prev, stocks, stockId, change) ==>
      stockId in r && r[stockId] == RequestedQuantity(prev, stockId, change)
  {
    if ExceedsAvailable(prev, stocks, stockId, change) then prev
    else prev[stockId := RequestedQuantity(prev, stockId, change)]
  }

  /** The quantities the screen can show: at least 1, and at most the row's available count (or 1). */
  ghost predicate QuantitiesInRange(quantities: map<int, int>, stocks: seq<Stock>) {
    && (forall id :: id in quantities ==> quantities[id] >= 1)
    && (forall i :: 0 <= i < |stocks| && stocks[i].id in quantities ==>
          quantities[stocks[i].id] <= Max(1, stocks[i].available))
  }

  /** A quantity change keeps every quantity in range. */
  lemma NextQuantitiesInRange(prev: map<int, int>, stocks: seq<Stock>, stockId: int, change: int)
    requires UniqueIds(stocks) && QuantitiesInRange(prev, stocks)
    ensures QuantitiesInRange(NextQuantities(prev, stocks, stockId, change), stocks)
  {
  }

  /** The `forEach` that sets every catalog row's quantity to 1. */
  method InitialQuantities(catalog: seq<Stock>) returns (quantities: map<int, int>)
    ensures quantities.Keys == Ids(catalog)
    ensures forall id :: id in quantities ==> quantities[id] == 1
  {
    quantities := map[];
    var i := 0;
    while i < |catalog|
      invariant 0 <= i <= |catalog|
      invariant quantities.Keys == Ids(catalog[..i])
      invariant forall id :: id in quantities ==> quantities[id] == 1
    {
      quantities := quantities[catalog[i].id := 1];
      assert Ids(catalog[..i + 1]) == Ids(catalog[..i]) + {catalog[i].id} by {
        assert forall j :: 0 <= j < i ==> catalog[..i + 1][j] == catalog[..i][j];
      }
      i := i + 1;
    }
    assert catalog[..i] == catalog;
  }

  /** The `stocks.map` in `handleBuy`: every row with `id` loses `quantity` available units. */
  function TakeFromStock(stocks: seq<Stock>, id: int, quantity: int): (r: seq<Stock>)
    ensures |r| == |stocks|
    ensures forall i :: 0 <= i < |stocks| && stocks[i].id != id ==> r[i] == stocks[i]
    ensures forall i :: 0 <= i < |stocks| && stocks[i].id == id ==>
      r[i] == stocks[i].(available := stocks[i].available - quantity)
  {
    seq(|stocks|, i requires 0 <= i < |stocks| =>
      if stocks[i].id == id then stocks[i].(available := stocks[i].available - quantity) else stocks[i])
  }

  /** The `BuyStocks` component's state. */
  class BuyScreen {
    var stocks: seq<Stock>
    var userCredits: int
    var message: Message
    var quantities: map<int, int>

    ghost predicate Valid()
      reads this
    {
      UniqueIds(stocks) && QuantitiesInRange(quantities, stocks)
    }

    /**
     * Mounting the screen: the initial state, then the effect that loads the
     * catalog. Credits are taken from the session's user only when truthy, so
     * a stored balance of 0 shows the default.
     */
    constructor Mount(catalog: seq<Stock>, session: Session)
      requires UniqueIds(catalog)
      ensures Valid()
      ensures stocks == catalog && message == Blank
      ensures quantities.Keys == Ids(catalog) && forall id :: id in quantities ==> quantities[id] == 1
      ensures userCredits
           == if session.user.Some? && Truthy(session.user.value.credits) then session.user.value.credits
              else DEFAULT_CREDITS
    {
      stocks := [];
      userCredits := DEFAULT_CREDITS;
      message := Blank;
      quantities := map[];
      new;
      LoadCatalog(catalog, session);
    }

    /** The effect run on mount and whenever the session's user changes. */
    method LoadCatalog(catalog: seq<Stock>, session: Session)
      requires UniqueIds(catalog)
      modifies this
      ensures Valid()
      ensures stocks == catalog && message == old(message)
      ensures quantities.Keys == Ids(catalog) && forall id :: id in quantities ==> quantities[id] == 1
      ensures userCredits
           == if session.user.Some? && Truthy(session.user.value.credits) then session.user.value.credits
              else old(userCredits)
    {
      stocks := catalog;
      quantities := InitialQuantities(catalog);
      if session.user.Some? && Truthy(session.user.value.credits) {
        userCredits := session.user.value.credits;
      }
    }

    /** `handleQuantityChange`. */
    method ChangeQuantity(stockId: int, change: int)
      requires Valid()
      modifies this
      ensures Valid()
      ensures quantities == NextQuantities(old(quantities), stocks, stockId, change)
      ensures stocks == old(stocks) && userCredits == old(userCredits) && message == old(message)
    {
      NextQuantitiesInRange(quantities, stocks, stockId, change);
      quantities := NextQuantities(quantities, stocks, stockId, change);
    }

    /** `handleBuy`: reject when the balance is short, otherwise debit, push the balance, take the stock. */
    method Buy(stock: Stock, session: Session)
      requires Valid() && session.Valid()
      modifies this, session
      ensures Valid() && session.Valid()
      ensures var quantity := CurrentQuantity(old(quantities), stock.id);
        var totalPrice := stock.price * quantity;
        if old(userCredits) < totalPrice then
          && userCredits == old(userCredits) && stocks == old(stocks) && quantities == old(quantities)
          && message == Insufficient
          && unchanged(session)
        else
          && userCredits == old(userCredits) - totalPrice
          && userCredits >= 0
          && stocks == TakeFromStock(old(stocks), stock.id, quantity)
          && quantities == old(quantities)[stock.id := 1]
          && message == Purchased(quantity, stock.symbol, totalPrice)
          && (old(session.user).Some? ==>
                session.user == Some(old(session.user).value.(credits := userCredits)))
          && (old(session.user).None? ==> session.user.None?)
          && session.portfolio == old(session.portfolio)
          && session.isAuthenticated == old(session.isAuthenticated)
          && session.loading == old(session.loading)
          && session.storage
             == (if old(session.user).Some? then old(session.storage)[USER_KEY := StoredUser(session.user.value)]
                 else old(session.storage))
      ensures forall i :: 0 <= i < |old(stocks)| && old(stocks)[i].available > 0 ==> stocks[i].available >= 0
    {
      var quantity := CurrentQuantity(quantities, stock.id);
      var totalPrice := stock.price * quantity;
      if userCredits < totalPrice {
        message := Insufficient;
        return;
      }
      var newCredits := userCredits - totalPrice;
      userCredits := newCredits;
      session.UpdateUserCredits(newCredits);
      stocks := TakeFromStock(stocks, stock.id, quantity);
      quantities := quantities[stock.id := 1];
      message := Purchased(quantity, stock.symbol, totalPrice);
    }
  }
}
