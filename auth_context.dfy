/**
 * The session store (Frontend/myapp/src/AuthContext.js): the logged-in user,
 * the authentication flag, the append-only purchase ledger, and their copies
 * in the browser's key-value storage, modelled as a map field.
 */
module AuthContext {

  import opened Wrappers
  import opened Catalog
  import opened Ledger

  /** The balance a user gets when none (or a falsy one) is given: 10000, in cents. */
  const DEFAULT_CREDITS := 1_000_000

  const USER_KEY := "user"
  const PORTFOLIO_KEY := "portfolio"

  /** What a caller passes to `login`: arbitrary profile fields and possibly a balance. */
  datatype UserData = UserData(profile: map<string, string>, credits: Option<int>)

  /** The stored user: profile fields (email, name, ...) and a balance in cents. */
  datatype User = User(profile: map<string, string>, credits: int)

  /** A value in the key-value storage: the serialized user or the serialized ledger. */
  datatype Stored = StoredUser(user: User) | StoredPortfolio(records: seq<Purchase>)

  /** JavaScript truthiness of a number (NaN is not modelled). */
  predicate Truthy(n: int) {
    n != 0
  }

  /** `{...userData, credits: userData.credits || 10000}`. */
  function WithDefaultCredits(userData: UserData): (u: User)
    ensures u.profile == userData.profile
    ensures Truthy(u.credits)
    ensures userData.credits.Some? && Truthy(userData.credits.value) ==> u.credits == userData.credits.value
    ensures userData.credits.None? || !Truthy(userData.credits.value) ==> u.credits == DEFAULT_CREDITS
  {
    User(userData.profile,
         if userData.credits.Some? && Truthy(userData.credits.value) then userData.credits.value
         else DEFAULT_CREDITS)
  }

  /** The two keys hold what the store writes there (the source does not handle anything else). */
  predicate WellFormed(storage: map<string, Stored>) {
    && (USER_KEY in storage ==> storage[USER_KEY].StoredUser?)
    && (PORTFOLIO_KEY in storage ==> storage[PORTFOLIO_KEY].StoredPortfolio?)
  }

  /** The `AuthProvider` component's state. */
  class Session {
    var user: Option<User>
    var isAuthenticated: bool
    var loading: bool
    var portfolio: seq<Purchase>
    var storage: map<string, Stored>

    /** In-memory state and persisted copy agree. */
    ghost predicate Valid()
      reads this
    {
      && isAuthenticated == user.Some?
      && (user.Some? <==> USER_KEY in storage)
      && (user.Some? ==> storage[USER_KEY] == StoredUser(user.value))
      && (PORTFOLIO_KEY in storage ==> storage[PORTFOLIO_KEY] == StoredPortfolio(portfolio))
      && (PORTFOLIO_KEY !in storage ==> portfolio == [])
    }

    /** Mounting the provider: restore the user and the ledger from `persisted`, if present. */
    constructor Mount(persisted: map<string, Stored>)
      requires WellFormed(persisted)
      ensures Valid() && !loading && storage == persisted
      ensures user == (if USER_KEY in persisted then Some(persisted[USER_KEY].user) else None)
      ensures isAuthenticated == (USER_KEY in persisted)
      ensures portfolio == (if PORTFOLIO_KEY in persisted then persisted[PORTFOLIO_KEY].records else [])
    {
      user := None;
      isAuthenticated := false;
      loading := true;
      portfolio := [];
      storage := persisted;
      new;
      if USER_KEY in persisted {
        user := Some(persisted[USER_KEY].user);
        isAuthenticated := true;
      }
      if PORTFOLIO_KEY in persisted {
        portfolio := persisted[PORTFOLIO_KEY].records;
      }
      loading := false;
    }

    /** `login`: the user with a default balance filled in becomes the session's user and is persisted. */
    method Login(userData: UserData)
      requires Valid()
      modifies this
      ensures Valid()
      ensures user == Some(WithDefaultCredits(userData)) && isAuthenticated
      ensures storage == old(storage)[USER_KEY := StoredUser(WithDefaultCredits(userData))]
      ensures portfolio == old(portfolio) && loading == old(loading)
    {
      var userWithCredits := WithDefaultCredits(userData);
      user := Some(userWithCredits);
      isAuthenticated := true;
      storage := storage[USER_KEY := StoredUser(userWithCredits)];
    }

    /** `logout`: the user is dropped and un-persisted; the ledger and its persisted copy stay. */
    method Logout()
      requires Valid()
      modifies this
      ensures Valid()
      ensures user.None? && !isAuthenticated
      ensures storage == old(storage) - {USER_KEY}
      ensures portfolio == old(portfolio) && loading == old(loading)
    {
      user := None;
      isAuthenticated := false;
      storage := storage - {USER_KEY};
    }

    /** `updateUserCredits`: without a user nothing happens; otherwise only the balance changes. */
    method UpdateUserCredits(newCredits: int)
      requires Valid()
      modifies this
      ensures Valid()
      ensures old(user).None? ==> user == old(user) && storage == old(storage)
      ensures old(user).Some? ==>
        && user.Some?
        && user.value.credits == newCredits
        && user.value.profile == old(user).value.profile
        && storage == old(storage)[USER_KEY := StoredUser(user.value)]
      ensures isAuthenticated == old(isAuthenticated) && portfolio == old(portfolio) && loading == old(loading)
    {
      if user.Some? {
        var updatedUser := user.value.(credits := newCredits);
        user := Some(updatedUser);
        storage := storage[USER_KEY := StoredUser(updatedUser)];
      }
    }

    /**
     * `addStockToPortfolio`: append one buy record and persist the ledger.
     * The clock readings the source takes are the parameters `purchaseId` and `purchaseDate`.
     */
    method AddStockToPortfolio(stock: Stock, quantity: int, price: int, purchaseId: string, purchaseDate: string)
      returns (id: string)
      requires Valid()
      modifies this
      ensures Valid()
      ensures id == purchaseId
      ensures |portfolio| == |old(portfolio)| + 1 && portfolio[..|old(portfolio)|] == old(portfolio)
      ensures portfolio[|portfolio| - 1]
           == Purchase(purchaseId, stock.id, stock.symbol, stock.name, quantity, price, stock.price, purchaseDate, BUY)
      ensures storage == old(storage)[PORTFOLIO_KEY := StoredPortfolio(portfolio)]
      ensures user == old(user) && isAuthenticated == old(isAuthenticated) && loading == old(loading)
    {
      var newPurchase := Purchase(purchaseId, stock.id, stock.symbol, stock.name, quantity, price, stock.price, purchaseDate, BUY);
      var updatedPortfolio := portfolio + [newPurchase];
      portfolio := updatedPortfolio;
      storage := storage[PORTFOLIO_KEY := StoredPortfolio(updatedPortfolio)];
      id := purchaseId;
    }

    /** `getPortfolioSummary`: one pass over the ledger, accumulating in place. */
    method GetPortfolioSummary() returns (summary: Summary)
      ensures summary == Summarize(portfolio)
      ensures summary.totalStocks == Shares(Buys(portfolio))
      ensures summary.totalValue == Worth(Buys(portfolio))
    {
      var totalStocks, totalValue, stocksBySymbol := 0, 0, map[];
      var i := 0;
      while i < |portfolio|
        invariant 0 <= i <= |portfolio|
        invariant Summary(totalStocks, totalValue, stocksBySymbol) == Summarize(portfolio[..i])
      {
        var item := portfolio[i];
        if item.kind == BUY {
          totalStocks := totalStocks + item.quantity;
          totalValue := totalValue + item.quantity * item.currentPrice;
          if item.symbol !in stocksBySymbol {
            stocksBySymbol := stocksBySymbol[item.symbol := Holding(0, 0, item.name)];
          }
          var h := stocksBySymbol[item.symbol];
          stocksBySymbol := stocksBySymbol[item.symbol := h.(quantity := h.quantity + item.quantity)];
          h := stocksBySymbol[item.symbol];
          stocksBySymbol := stocksBySymbol[item.symbol := h.(value := h.value + item.quantity * item.currentPrice)];
        }
        assert portfolio[..i + 1] == portfolio[..i] + [item];
        SummarizeSnoc(portfolio[..i], item);
        i := i + 1;
      }
      assert portfolio[..i] == portfolio;
      summary := Summary(totalStocks, totalValue, stocksBySymbol);
      SummaryTotals(portfolio);
    }
  }

  /** Logging out and reloading the page leaves nobody logged in, with the ledger restored. */
  method LogoutThenReload(session: Session) returns (reloaded: Session)
    requires session.Valid()
    modifies session
    ensures reloaded.Valid() && USER_KEY !in reloaded.storage
    ensures !reloaded.isAuthenticated && reloaded.user.None?
    ensures reloaded.portfolio == old(session.portfolio)
  {
    session.Logout();
    reloaded := new Session.Mount(session.storage);
  }
}
