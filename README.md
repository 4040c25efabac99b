# Mock stock-trading dashboard: session store and buy screen

This project models the two bookkeeping components of a browser-based mock
stock-trading dashboard and proves properties of them in Dafny:

- **The session store** (`AuthContext`, class `Session`). It holds the logged-in
  user and their credit balance, the authentication flag, and an append-only
  ledger of purchase records. It keeps a copy of the user and the ledger in
  the browser's key-value storage, modelled as the map field `storage`. Its
  operations are mounting (restoring from storage), `login`, `logout`,
  `updateUserCredits`, `addStockToPortfolio` and `getPortfolioSummary`.
- **The buy screen** (`BuyStocks`, class `BuyScreen`). It holds a catalog of
  stocks, a quantity per row, a local credit balance and a status message.
  Loading the catalog sets every row's quantity to 1 and copies the user's
  balance when it is truthy. A quantity change keeps the row at 1 or more
  and refuses to go past the row's available count. A purchase is refused
  when the balance is short. Otherwise it debits the balance, pushes the new
  balance to the session store, lowers the row's available count and resets
  the row's quantity to 1.
- **The portfolio summary** (`Ledger`). The fold `Summarize` mirrors the
  `forEach` of `getPortfolioSummary`. It is compared with independent
  definitions: the buy records (`Buys`), the records of one symbol
  (`WithSymbol`), and their share and value totals (`Shares`, `Worth`).

Money is in integer cents: the default balance of 10000 is
`DEFAULT_CREDITS == 1_000_000`. JavaScript truthiness of a number is
`Truthy(n) == (n != 0)`. `Catalog` holds the stock rows and the
`stocks.find` lookup, and `Scenarios` runs the components together on
catalog rows.

A purchase on the buy screen does not write to the ledger. `handleBuy`
takes only `user` and `updateUserCredits` from the session
(Frontend/myapp/src/BuyStocks.jsx:7) and never calls `addStockToPortfolio`.
The model follows the code, so `BuyScreen.Buy` states that the session's
`portfolio` is unchanged.

Two quirks of the source are modelled as written:

- A stored balance of 0 is falsy. The screen then keeps its default of
  10000 (`Scenarios.ZeroBalanceReadsAsDefault`).
- `login` replaces a balance of 0 with 10000 (`AuthContext.WithDefaultCredits`).

## Model

| member | source | states |
|---|---|---|
| `Catalog.Find` | Frontend/myapp/src/BuyStocks.jsx:52 | the lookup finds nothing exactly when no row has the id; otherwise it returns a row with that id and no earlier row has it |
| `BuyStocks.CurrentQuantity` | Frontend/myapp/src/BuyStocks.jsx:48 | a row's quantity is never 0; a missing or zero entry reads as 1; a truthy entry reads as itself |
| `BuyStocks.RequestedQuantity` | Frontend/myapp/src/BuyStocks.jsx:49 | the requested quantity is at least 1 and at least current + change, and it is one of the two |
| `BuyStocks.NextQuantities` | Frontend/myapp/src/BuyStocks.jsx:47-61 | entries other than `stockId` keep their keys and values; if the request exceeds the found row's `available`, the map comes back unchanged; otherwise `stockId` maps to the requested quantity |
| `BuyStocks.NextQuantitiesInRange` | Frontend/myapp/src/BuyStocks.jsx:49-55 | in a catalog with distinct ids, a quantity change keeps every quantity at least 1 and at most max(1, the row's available) |
| `BuyStocks.InitialQuantities` | Frontend/myapp/src/BuyStocks.jsx:31-34 | the initial quantities have exactly the catalog's ids as keys, each mapped to 1 |
| `BuyStocks.TakeFromStock` | Frontend/myapp/src/BuyStocks.jsx:87-93 | the catalog keeps its length; rows with the bought id lose exactly `quantity` from `available` and nothing else; other rows are unchanged |
| `BuyStocks.BuyScreen.Mount` | Frontend/myapp/src/BuyStocks.jsx:9-44 | after mounting, the catalog is loaded, every quantity is 1, the message is blank, and credits are the user's balance if it is truthy, else 10000 |
| `BuyStocks.BuyScreen.LoadCatalog` | Frontend/myapp/src/BuyStocks.jsx:15-44 | the effect loads the catalog and sets every quantity to 1; it takes the user's balance only when it is truthy, otherwise the shown credits stay as they were |
| `BuyStocks.BuyScreen.ChangeQuantity` | Frontend/myapp/src/BuyStocks.jsx:46-62 | only the quantities change, as `NextQuantities` says, and the quantities stay in range |
| `BuyStocks.BuyScreen.Buy` | Frontend/myapp/src/BuyStocks.jsx:64-105 | short balance: nothing changes (screen and session) except the message, whose type is 'danger'; otherwise credits drop by price × quantity and stay ≥ 0, the session user gets the same balance with nothing else changed, only the persisted 'user' key is rewritten (and nothing is written without a user), the ledger and `loading` are untouched, only the bought rows lose `quantity` available, that row's quantity resets to 1, the message type is 'success'; a row whose Buy button was enabled (available > 0) keeps available ≥ 0 |
| `AuthContext.WithDefaultCredits` | Frontend/myapp/src/AuthContext.js:30-33 | the user keeps every profile field; credits are the given ones when truthy, else 10000 (also for 0); so a logged-in balance is always truthy |
| `AuthContext.Session.Mount` | Frontend/myapp/src/AuthContext.js:6-26 | mounting restores the user (and sets authenticated) exactly when storage holds one, restores the ledger when storage holds one, and clears `loading` |
| `AuthContext.Session.Login` | Frontend/myapp/src/AuthContext.js:28-38 | the user becomes `userData` with default credits, authenticated is set, the persisted user equals the in-memory one, the ledger is unchanged |
| `AuthContext.Session.Logout` | Frontend/myapp/src/AuthContext.js:40-44 | user is null, not authenticated, the persisted 'user' key is removed, the ledger and the persisted 'portfolio' are unchanged |
| `AuthContext.Session.UpdateUserCredits` | Frontend/myapp/src/AuthContext.js:46-55 | without a user nothing changes; otherwise only `credits` changes, and the persisted user equals the in-memory one |
| `AuthContext.Session.AddStockToPortfolio` | Frontend/myapp/src/AuthContext.js:57-78 | the ledger grows by exactly one record and keeps its earlier records; the new record is a 'buy' with the given quantity, purchasePrice = price, currentPrice = stock.price and the returned id; the ledger is persisted |
| `AuthContext.Session.GetPortfolioSummary` | Frontend/myapp/src/AuthContext.js:80-106 | the loop computes the fold `Summarize` of the ledger without modifying it; totalStocks and totalValue equal the share and value totals of the buy records |
| `AuthContext.LogoutThenReload` | Frontend/myapp/src/AuthContext.js:40-44 | after logout and a reload from storage the user record is absent from storage, nobody is authenticated, the reloaded session is consistent with its storage, and the ledger is still there |
| `Ledger.SummaryTotals` | Frontend/myapp/src/AuthContext.js:87-90 | totalStocks is the sum of quantities over 'buy' records; totalValue is the sum of quantity × currentPrice (not purchasePrice) over them |
| `Ledger.SummaryKeys` | Frontend/myapp/src/AuthContext.js:88-98 | a symbol is a key of stocksBySymbol exactly when some 'buy' record carries it |
| `Ledger.SummaryHolding` | Frontend/myapp/src/AuthContext.js:92-101 | a symbol's entry holds the quantity total and the quantity × currentPrice total of that symbol's buy records, and the name of the first of them |
| `Ledger.SymbolSharesSumToTotal` | Frontend/myapp/src/AuthContext.js:89-100 | the per-symbol quantities add up to totalStocks |
| `Ledger.SummaryIgnoresOtherRecords` | Frontend/myapp/src/AuthContext.js:88 | dropping every record whose type is not 'buy' leaves the summary unchanged |
| `Scenarios.BuyTenApple` | Frontend/myapp/src/BuyStocks.jsx:64-105 | from 10000 credits, 10 AAPL at 175.34 leave 8246.60 on the screen and in the session, 90 available and an empty ledger |
| `Scenarios.RefuseNvidia` | Frontend/myapp/src/BuyStocks.jsx:69-75 | with 100 credits, one NVDA at 435.67 is refused: credits stay 100, the message type is 'danger', 60 remain available |
| `Scenarios.ZeroBalanceReadsAsDefault` | Frontend/myapp/src/BuyStocks.jsx:41-43 | spending the balance to exactly 0 stores 0 in the session, and reopening the screen shows 10000 |

## Left out

- Browser storage and JSON (de)serialisation: the storage is a map from key to a typed value. `Session.Mount` requires the two keys to hold a user and a ledger respectively, because the source does not handle parse failures.
- Clock readings: `Date.now()` and `new Date().toISOString()` become the `purchaseId` and `purchaseDate` parameters of `AddStockToPortfolio`.
- Floating point: prices and credits are exact integer cents, so IEEE-754 rounding (as in 175.34 × 10) is not modelled. NaN is not modelled, so truthiness of a number is `!= 0`.
- The catalog contents: the loading effect takes the catalog as a parameter. `LoadCatalog` and `Mount` require distinct ids, which the hardcoded catalog has.
- React scheduling: each handler is one atomic step, and the updaters read the current state. The effect that loads the catalog runs when the session's user changes. When a user is logged in, a successful purchase replaces the user through `updateUserCredits`, so in the running app the effect runs again; that run restores the catalog's available counts and quantities. Without a user, `updateUserCredits` does nothing, the user does not change and the lowered counts stay. The model does not run `LoadCatalog` after `Buy` by itself; a caller can.
- `BuyStocks.BuyScreen.Buy`: the success message's text (with `toFixed` formatting) is kept as its parts (quantity, symbol, total), not as a string.
- Rendering, CSS classes, navigation (`goBack`, `navigate`) and the dashboard page: presentation and routing only. Of the buttons' disabled conditions, only the Buy button's `stock.available <= 0` (Frontend/myapp/src/BuyStocks.jsx:173) enters, as the hypothesis "available > 0" in `Buy`'s last postcondition. Its `userCredits < totalPrice` half is not needed, because `handleBuy` repeats that check. The `+` button's `quantity >= stock.available` (Frontend/myapp/src/BuyStocks.jsx:163) does not enter; the quantity bound comes from the refusal in `handleQuantityChange` (Frontend/myapp/src/BuyStocks.jsx:53-54), which `NextQuantities` models.
