/** The two linear lookups over exchange snapshots: the price of one trading
    pair in the ticker list, and the free balance of one asset in the account's
    balance list. Prices and amounts arrive as decimal strings that the bot
    converts with `float`; here they are exact reals. */
module MarketData {
  import opened Wrappers

  /** One entry of the ticker snapshot: a trading pair and its last price. */
  datatype Ticker = Ticker(symbol: string, price: real)

  /** One entry of the account's balance list: an asset and its free amount. */
  datatype Balance = Balance(asset: string, free: real)

  /** `get_market_ticker_price`: the price of the first ticker whose symbol is
      exactly `symbol`, or `None` when no ticker has that symbol. */
  function TickerPrice(tickers: seq<Ticker>, symbol: string): (r: Option<real>)
    ensures r.None? <==> forall i :: 0 <= i < |tickers| ==> tickers[i].symbol != symbol
    ensures r.Some? ==>
      exists i :: 0 <= i < |tickers| && tickers[i].symbol == symbol && r.value == tickers[i].price
        && forall j :: 0 <= j < i ==> tickers[j].symbol != symbol
  {
    if tickers == [] then None
    else if tickers[0].symbol == symbol then Some(tickers[0].price)
    else
      var r := TickerPrice(tickers[1..], symbol);
      assert r.Some? ==> (exists i :: 1 <= i < |tickers| && tickers[i].symbol == symbol && r.value == tickers[i].price
                                   && forall j :: 0 <= j < i ==> tickers[j].symbol != symbol) by {
        if r.Some? {
          var k :| 0 <= k < |tickers[1..]| && tickers[1..][k].symbol == symbol && r.value == tickers[1..][k].price
            && forall j :: 0 <= j < k ==> tickers[1..][j].symbol != symbol;
          assert tickers[k + 1] == tickers[1..][k];
        }
      }
      r
  }

  /** `get_currency_balance`: the free amount of the first balance entry whose
      asset is exactly `asset`, or `None` when the account lists no such asset. */
  function FreeBalance(balances: seq<Balance>, asset: string): (r: Option<real>)
    ensures r.None? <==> forall i :: 0 <= i < |balances| ==> balances[i].asset != asset
    ensures r.Some? ==>
      exists i :: 0 <= i < |balances| && balances[i].asset == asset && r.value == balances[i].free
        && forall j :: 0 <= j < i ==> balances[j].asset != asset
  {
    if balances == [] then None
    else if balances[0].asset == asset then Some(balances[0].free)
    else
      var r := FreeBalance(balances[1..], asset);
      assert r.Some? ==> (exists i :: 1 <= i < |balances| && balances[i].asset == asset && r.value == balances[i].free
                                   && forall j :: 0 <= j < i ==> balances[j].asset != asset) by {
        if r.Some? {
          var k :| 0 <= k < |balances[1..]| && balances[1..][k].asset == asset && r.value == balances[1..][k].free
            && forall j :: 0 <= j < k ==> balances[1..][j].asset != asset;
          assert balances[k + 1] == balances[1..][k];
        }
      }
      r
  }

  /** The balance lookup reads one fresh account snapshot: an exception from
      the client propagates, otherwise the result is the lookup above. */
  function CurrencyBalance(account: Reply<seq<Balance>>, asset: string): (r: Reply<Option<real>>)
    ensures account.Raised? ==> r == Raised(account.fault)
    ensures account.Ok? ==> r.Ok? && (r.value.None? <==> forall i :: 0 <= i < |account.value| ==> account.value[i].asset != asset)
  {
    match account
    case Raised(e) => Raised(e)
    case Ok(balances) => Ok(FreeBalance(balances, asset))
  }

  /** Entries in front of the first match do not influence either lookup. */
  lemma {:induction false} FreeBalanceSkipsOtherAssets(prefix: seq<Balance>, rest: seq<Balance>, asset: string)
    requires forall i :: 0 <= i < |prefix| ==> prefix[i].asset != asset
    ensures FreeBalance(prefix + rest, asset) == FreeBalance(rest, asset)
  {
    if prefix == [] {
      assert prefix + rest == rest;
    } else {
      assert (prefix + rest)[1..] == prefix[1..] + rest;
      FreeBalanceSkipsOtherAssets(prefix[1..], rest, asset);
    }
  }
}
