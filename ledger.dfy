/**
 * The purchase ledger of the session store and the summary computed from it
 * (Frontend/myapp/src/AuthContext.js, `addStockToPortfolio` and
 * `getPortfolioSummary`). Prices and values are in integer cents.
 */
module Ledger {

  /** The `type` tag of every record `addStockToPortfolio` creates. */
  const BUY := "buy"

  /** One ledger record; `kind` is the source's `type` field. */
  datatype Purchase = Purchase(
    id: string,
    stockId: int,
    symbol: string,
    name: string,
    quantity: int,
    purchasePrice: int,
    currentPrice: int,
    purchaseDate: string,
    kind: string)

  predicate IsBuy(p: Purchase) {
    p.kind == BUY
  }

  /** One entry of `stocksBySymbol`. */
  datatype Holding = Holding(quantity: int, value: int, name: string)

  /** The object `getPortfolioSummary` returns. */
  datatype Summary = Summary(totalStocks: int, totalValue: int, stocksBySymbol: map<string, Holding>)

  const EMPTY_SUMMARY := Summary(0, 0, map[])

  /** One pass of the `forEach` body over a record: records that are not buys are skipped. */
  function Tally(s: Summary, item: Purchase): (r: Summary) {
    if !IsBuy(item) then s
    else
      var worth := item.quantity * item.currentPrice;
      var h := if item.symbol in s.stocksBySymbol then s.stocksBySymbol[item.symbol]
               else Holding(0, 0, item.name);
      Summary(s.totalStocks + item.quantity, s.totalValue + worth,
              s.stocksBySymbol[item.symbol := Holding(h.quantity + item.quantity, h.value + worth, h.name)])
  }

  /** The summary of a ledger: `Tally` folded over the records from first to last. */
  function Summarize(ledger: seq<Purchase>): (r: Summary)
    decreases |ledger|
  {
    if ledger == [] then EMPTY_SUMMARY
    else Tally(Summarize(ledger[..|ledger| - 1]), ledger[|ledger| - 1])
  }

  lemma SummarizeSnoc(ledger: seq<Purchase>, item: Purchase)
    ensures Summarize(ledger + [item]) == Tally(Summarize(ledger), item)
  {
  }

  // Reference definitions, written independently of the fold.

  /** The buy records of a ledger, in order. */
  function Buys(ledger: seq<Purchase>): (r: seq<Purchase>) {
    if ledger == [] then []
    else (if IsBuy(ledger[0]) then [ledger[0]] else []) + Buys(ledger[1..])
  }

  /** The records of a ledger that carry `symbol`, in order. */
  function WithSymbol(ledger: seq<Purchase>, symbol: string): (r: seq<Purchase>) {
    if ledger == [] then []
    else (if ledger[0].symbol == symbol then [ledger[0]] else []) + WithSymbol(ledger[1..], symbol)
  }

  /** Total share count of some records. */
  function Shares(records: seq<Purchase>): (n: int) {
    if records == [] then 0 else records[0].quantity + Shares(records[1..])
  }

  /** Total market value of some records, at their current price. */
  function Worth(records: seq<Purchase>): (n: int) {
    if records == [] then 0 else records[0].quantity * records[0].currentPrice + Worth(records[1..])
  }

  /** The sum of the per-symbol share counts of a `stocksBySymbol` map. */
  ghost function SymbolShares(m: map<string, Holding>): (n: int)
    decreases |m|
  {
    if m == map[] then 0
    else
      var k := AnySymbol(m);
      assert (m - {k}).Keys == m.Keys - {k};
      m[k].quantity + SymbolShares(m - {k})
  }

  ghost function AnySymbol(m: map<string, Holding>): (k: string)
    requires m != map[]
    ensures k in m
  {
    var k :| k in m; k
  }

  // How the reference definitions extend by one record.

  lemma {:induction false} BuysSnoc(ledger: seq<Purchase>, item: Purchase)
    ensures Buys(ledger + [item]) == Buys(ledger) + (if IsBuy(item) then [item] else [])
  {
    if ledger != [] {
      assert (ledger + [item])[1..] == ledger[1..] + [item];
      BuysSnoc(ledger[1..], item);
    } else {
      assert [item][1..] == [];
    }
  }

  lemma {:induction false} WithSymbolSnoc(ledger: seq<Purchase>, symbol: string, item: Purchase)
    ensures WithSymbol(ledger + [item], symbol)
         == WithSymbol(ledger, symbol) + (if item.symbol == symbol then [item] else [])
  {
    if ledger != [] {
      assert (ledger + [item])[1..] == ledger[1..] + [item];
      WithSymbolSnoc(ledger[1..], symbol, item);
    } else {
      assert [item][1..] == [];
    }
  }

  lemma {:induction false} SharesAppend(a: seq<Purchase>, b: seq<Purchase>)
    ensures Shares(a + b) == Shares(a) + Shares(b)
    ensures Worth(a + b) == Worth(a) + Worth(b)
  {
    if a == [] {
      assert a + b == b;
    } else {
      assert (a + b)[1..] == a[1..] + b;
      SharesAppend(a[1..], b);
    }
  }

  lemma {:induction false} SymbolSharesRemove(m: map<string, Holding>, k: string)
    requires k in m
    ensures SymbolShares(m) == m[k].quantity + SymbolShares(m - {k})
    decreases |m|
  {
    var j := AnySymbol(m);
    if j != k {
      assert (m - {j}).Keys == m.Keys - {j};
      assert (m - {k}).Keys == m.Keys - {k};
      SymbolSharesRemove(m - {j}, k);
      SymbolSharesRemove(m - {k}, j);
      assert m - {j} - {k} == m - {k} - {j};
    }
  }

  // What the summary means.

  /** `totalStocks` and `totalValue` add up quantity and quantity × current price over the buy records. */
  lemma {:induction false} SummaryTotals(ledger: seq<Purchase>)
    ensures Summarize(ledger).totalStocks == Shares(Buys(ledger))
    ensures Summarize(ledger).totalValue == Worth(Buys(ledger))
  {
    if ledger != [] {
      var prefix, item := ledger[..|ledger| - 1], ledger[|ledger| - 1];
      assert ledger == prefix + [item];
      SummaryTotals(prefix);
      BuysSnoc(prefix, item);
      SharesAppend(Buys(prefix), if IsBuy(item) then [item] else []);
    }
  }

  /** A symbol is a key of `stocksBySymbol` exactly when some buy record carries it. */
  lemma {:induction false} SummaryKeys(ledger: seq<Purchase>, symbol: string)
    ensures symbol in Summarize(ledger).stocksBySymbol
        <==> exists i :: 0 <= i < |ledger| && IsBuy(ledger[i]) && ledger[i].symbol == symbol
  {
    if ledger != [] {
      var prefix, item := ledger[..|ledger| - 1], ledger[|ledger| - 1];
      SummaryKeys(prefix, symbol);
      if exists i :: 0 <= i < |ledger| && IsBuy(ledger[i]) && ledger[i].symbol == symbol {
        var i :| 0 <= i < |ledger| && IsBuy(ledger[i]) && ledger[i].symbol == symbol;
        if i < |prefix| {
          assert prefix[i] == ledger[i];
        }
      }
    }
  }

  /**
   * The holding of a symbol sums the quantities and current values of that
   * symbol's buy records, and takes its name from the first of them.
   */
  lemma {:induction false} SummaryHolding(ledger: seq<Purchase>, symbol: string)
    requires symbol in Summarize(ledger).stocksBySymbol
    ensures var records := WithSymbol(Buys(ledger), symbol);
      records != [] &&
      Summarize(ledger).stocksBySymbol[symbol] == Holding(Shares(records), Worth(records), records[0].name)
  {
    var prefix, item := ledger[..|ledger| - 1], ledger[|ledger| - 1];
    assert ledger == prefix + [item];
    BuysSnoc(prefix, item);
    var added := if IsBuy(item) then [item] else [];
    WithSymbolSnoc(Buys(prefix), symbol, item);
    assert WithSymbol(Buys(ledger), symbol) == WithSymbol(Buys(prefix), symbol) + WithSymbol(added, symbol) by {
      if IsBuy(item) {
        assert WithSymbol(added, symbol) == if item.symbol == symbol then [item] else [];
      } else {
        assert Buys(ledger) == Buys(prefix);
      }
    }
    var before := WithSymbol(Buys(prefix), symbol);
    SharesAppend(before, WithSymbol(added, symbol));
    if symbol in Summarize(prefix).stocksBySymbol {
      SummaryHolding(prefix, symbol);
    } else {
      SummaryKeys(prefix, symbol);
      NoBuyNoRecords(prefix, symbol);
      assert before == [];
    }
  }

  /** Without a buy record for `symbol`, the buys carrying it are none. */
  lemma {:induction false} NoBuyNoRecords(ledger: seq<Purchase>, symbol: string)
    requires forall i :: 0 <= i < |ledger| ==> !(IsBuy(ledger[i]) && ledger[i].symbol == symbol)
    ensures WithSymbol(Buys(ledger), symbol) == []
  {
    if ledger != [] {
      assert forall i :: 0 <= i < |ledger[1..]| ==> ledger[1..][i] == ledger[i + 1];
      NoBuyNoRecords(ledger[1..], symbol);
      var head := if IsBuy(ledger[0]) then [ledger[0]] else [];
      assert Buys(ledger) == head + Buys(ledger[1..]);
      WithSymbolAppend(head, Buys(ledger[1..]), symbol);
    }
  }

  lemma {:induction false} WithSymbolAppend(a: seq<Purchase>, b: seq<Purchase>, symbol: string)
    ensures WithSymbol(a + b, symbol) == WithSymbol(a, symbol) + WithSymbol(b, symbol)
  {
    if a == [] {
      assert a + b == b;
    } else {
      var head := if a[0].symbol == symbol then [a[0]] else [];
      assert (a + b)[0] == a[0];
      assert (a + b)[1..] == a[1..] + b;
      calc {
        WithSymbol(a + b, symbol);
        head + WithSymbol(a[1..] + b, symbol);
        { WithSymbolAppend(a[1..], b, symbol); }
        head + (WithSymbol(a[1..], symbol) + WithSymbol(b, symbol));
        (head + WithSymbol(a[1..], symbol)) + WithSymbol(b, symbol);
      }
    }
  }

  /** The per-symbol share counts add up to `totalStocks`. */
  lemma {:induction false} SymbolSharesSumToTotal(ledger: seq<Purchase>)
    ensures SymbolShares(Summarize(ledger).stocksBySymbol) == Summarize(ledger).totalStocks
  {
    if ledger != [] {
      var prefix, item := ledger[..|ledger| - 1], ledger[|ledger| - 1];
      SymbolSharesSumToTotal(prefix);
      if IsBuy(item) {
        var m := Summarize(prefix).stocksBySymbol;
        var m' := Summarize(ledger).stocksBySymbol;
        SymbolSharesRemove(m', item.symbol);
        assert m' - {item.symbol} == m - {item.symbol};
        if item.symbol in m {
          SymbolSharesRemove(m, item.symbol);
        } else {
          assert m - {item.symbol} == m;
        }
      }
    }
  }

  /** Records that are not buys do not affect the summary. */
  lemma {:induction false} SummaryIgnoresOtherRecords(ledger: seq<Purchase>)
    ensures Summarize(Buys(ledger)) == Summarize(ledger)
  {
    if ledger != [] {
      var prefix, item := ledger[..|ledger| - 1], ledger[|ledger| - 1];
      assert ledger == prefix + [item];
      SummaryIgnoresOtherRecords(prefix);
      BuysSnoc(prefix, item);
      if IsBuy(item) {
        SummarizeSnoc(Buys(prefix), item);
      } else {
        assert Buys(ledger) == Buys(prefix);
      }
    }
  }
}
