/**
 * Worked runs of the session store and the buy screen together, on rows of
 * the screen's catalog (prices in cents).
 */
module Scenarios {

  import opened Wrappers
  import opened Catalog
  import opened AuthContext
  import opened BuyStocks

  const AAPL := Stock(1, "AAPL", "Apple Inc.", 17534, "+1.25%", 100)
  const NVDA := Stock(8, "NVDA", "NVIDIA Corporation", 43567, "+2.75%", 60)

  /**
   * A fresh login gets 10000 credits; raising AAPL's quantity to 10 and buying
   * costs 1753.40, leaving 8246.60 on the screen and in the session, 90
   * shares available, and the ledger untouched.
   */
  method BuyTenApple() returns (credits: int, sessionCredits: int, available: int, ledgerSize: int)
    ensures credits == 824660 && sessionCredits == 824660
    ensures available == 90 && ledgerSize == 0
  {
    var session := new Session.Mount(map[]);
    session.Login(UserData(map["email" := "trader@example.com"], None));
    var screen := new BuyScreen.Mount([AAPL], session);
    assert Ids([AAPL]) == {AAPL.id} by {
      assert [AAPL][0].id == AAPL.id;
    }
    assert screen.quantities == map[AAPL.id := 1];
    var n := 1;
    while n < 10
      invariant 1 <= n <= 10
      invariant screen.Valid() && session.Valid()
      invariant screen.stocks == [AAPL] && screen.quantities == map[AAPL.id := n]
      invariant screen.userCredits == DEFAULT_CREDITS
      invariant session.user.Some? && session.user.value.credits == DEFAULT_CREDITS && session.portfolio == []
    {
      screen.ChangeQuantity(AAPL.id, 1);
      n := n + 1;
    }
    screen.Buy(AAPL, session);
    credits, sessionCredits := screen.userCredits, session.user.value.credits;
    available, ledgerSize := screen.stocks[0].available, |session.portfolio|;
  }

  /** With 100 credits, one NVDA share at 435.67 is refused and nothing changes. */
  method RefuseNvidia() returns (credits: int, kind: string, available: int)
    ensures credits == 10000 && kind == "danger" && available == 60
  {
    var session := new Session.Mount(map[]);
    session.Login(UserData(map[], Some(10000)));
    var screen := new BuyScreen.Mount([NVDA], session);
    screen.Buy(NVDA, session);
    credits, kind, available := screen.userCredits, screen.message.Type(), screen.stocks[0].available;
  }

  /**
   * Spending the balance to exactly 0 stores 0 in the session; opening the
   * screen again then shows the default 10000, because 0 is falsy.
   */
  method ZeroBalanceReadsAsDefault() returns (stored: int, shown: int)
    ensures stored == 0 && shown == DEFAULT_CREDITS
  {
    var session := new Session.Mount(map[]);
    session.Login(UserData(map[], Some(AAPL.price)));
    var screen := new BuyScreen.Mount([AAPL], session);
    screen.Buy(AAPL, session);
    stored := session.user.value.credits;
    var reopened := new BuyScreen.Mount([AAPL], session);
    shown := reopened.userCredits;
  }
}
