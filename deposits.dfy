/** The deposit history the scout works from, and the scout's selection of
    deposits that the account could sell back (lines 200-234).

    The clock is a parameter: `now` is `time.time()` in seconds. The source
    reads the clock afresh for each use; here every use sees the same `now`.
    Deposit amounts and balances are exact reals instead of the floats that
    `float` produces. */
module Deposits {
  import opened Wrappers
  import opened MarketData

  /** One entry of the deposit history: the coin, the amount deposited and
      the time it was recorded, in milliseconds since the epoch. */
  datatype Deposit = Deposit(coin: string, amount: real, insertTime: int)

  /** The `startTime` and `endTime` arguments of the history query, in
      milliseconds. */
  datatype Window = Window(startTime: int, endTime: int)

  /** The arguments of the history query of line 205: the deposit status
      asked for and the time window. */
  datatype HistoryQuery = HistoryQuery(status: int, window: Window)

  /** Status 1 asks for completed deposits only. */
  const SuccessStatus: int := 1

  /** Coins the scout never reports (line 83). */
  const StableCoins: seq<string> := ["USDT", "BUSD"]

  const SecondsPerDay: int := 86400

  /** The history query reaches back this many days (line 205). */
  const QueryDays: int := 60

  /** Python's `int` applied to a float: truncation toward zero. */
  function Trunc(x: real): (n: int)
    ensures 0.0 <= x ==> n as real <= x < n as real + 1.0
    ensures x < 0.0 ==> n as real - 1.0 < x <= n as real
  {
    if x >= 0.0 then x.Floor else -((-x).Floor)
  }

  /** Line 205: the history is asked for from `QueryDays` days before `now`
      up to `now`, both truncated to whole seconds. */
  function QueryWindow(now: real): (w: Window)
    ensures w.startTime <= w.endTime
    ensures 0.0 <= now ==> w.endTime as real <= now * 1000.0
  {
    Window(Trunc(now - (SecondsPerDay * QueryDays) as real) * 1000, Trunc(now) * 1000)
  }

  /** Once the clock is past the first 60 days of the epoch, the window is
      exactly 60 days long, not one day as the function's name says. */
  lemma QueryWindowSpansSixtyDays(now: real)
    requires now >= (SecondsPerDay * QueryDays) as real
    ensures QueryWindow(now).endTime - QueryWindow(now).startTime == SecondsPerDay * QueryDays * 1000
  {
    var back := now - 5184000.0;
    assert back.Floor == now.Floor - 5184000;
  }

  /** Line 210: the filter compares the insertion time, in milliseconds, with
      the current time in seconds multiplied by the number of seconds in a
      day. */
  predicate IsRecent(d: Deposit, now: real)
  {
    d.insertTime as real <= now * SecondsPerDay as real
  }

  /** The deposits of `ds` that pass the filter, in their order. */
  function Recent(ds: seq<Deposit>, now: real): seq<Deposit>
  {
    if ds == [] then []
    else Recent(ds[..|ds| - 1], now) + (if IsRecent(ds[|ds| - 1], now) then [ds[|ds| - 1]] else [])
  }

  /** Lines 200-213: ask for the completed deposits of the query window, then
      keep, in order, the deposits of the reply `history` that pass the
      filter. An exception from the client propagates. */
  method RecentDeposits(history: Reply<seq<Deposit>>, now: real)
    returns (query: HistoryQuery, r: Reply<seq<Deposit>>)
    ensures query.status == SuccessStatus && query.window == QueryWindow(now)
    ensures query.window.startTime <= query.window.endTime
    ensures history.Raised? ==> r == Raised(history.fault)
    ensures history.Ok? ==> r == Ok(Recent(history.value, now))
  {
    query := HistoryQuery(SuccessStatus, QueryWindow(now));
    if history.Raised? {
      return query, Raised(history.fault);
    }
    var ds := history.value;
    var kept: seq<Deposit> := [];
    for i := 0 to |ds|
      invariant kept == Recent(ds[..i], now)
    {
      assert ds[..i + 1][..i] == ds[..i];
      if ds[i].insertTime as real <= now * SecondsPerDay as real {
        kept := kept + [ds[i]];
      }
    }
    assert ds[..|ds|] == ds;
    return query, Ok(kept);
  }

  /** The filter distributes over concatenation: it keeps the order of the
      deposits and decides each one on its own. */
  lemma {:induction false} RecentAppend(a: seq<Deposit>, b: seq<Deposit>, now: real)
    ensures Recent(a + b, now) == Recent(a, now) + Recent(b, now)
    decreases |b|
  {
    if b == [] {
      assert a + b == a;
    } else {
      assert (a + b)[..|a + b| - 1] == a + b[..|b| - 1];
      RecentAppend(a, b[..|b| - 1], now);
    }
  }

  /** A deposit is kept exactly when it is in the history and passes the
      filter. */
  lemma {:induction false} RecentMembers(ds: seq<Deposit>, now: real, d: Deposit)
    ensures d in Recent(ds, now) <==> d in ds && IsRecent(d, now)
    decreases |ds|
  {
    if ds != [] {
      RecentMembers(ds[..|ds| - 1], now, d);
      assert ds == ds[..|ds| - 1] + [ds[|ds| - 1]];
    }
  }

  /** With a clock at or after the epoch, the filter keeps every deposit the
      query can return: anything recorded up to the end of the query window
      is far below `now * 86400`. The filter drops nothing. */
  lemma {:induction false} RecentKeepsWindow(ds: seq<Deposit>, now: real)
    requires 0.0 <= now
    requires forall i :: 0 <= i < |ds| ==> ds[i].insertTime <= QueryWindow(now).endTime
    ensures Recent(ds, now) == ds
    decreases |ds|
  {
    if ds != [] {
      RecentKeepsWindow(ds[..|ds| - 1], now);
      assert IsRecent(ds[|ds| - 1], now);
      assert ds == ds[..|ds| - 1] + [ds[|ds| - 1]];
    }
  }

  /** Deposits recorded before the start of the window also pass the filter:
      it does not restrict the history to any recent period. */
  lemma OldDepositsPass(d: Deposit, now: real)
    requires 0.0 <= now && d.insertTime < QueryWindow(now).startTime
    ensures IsRecent(d, now)
  {
  }

  /** The condition of line 231 for one balance entry and one deposit. */
  predicate Matches(b: Balance, d: Deposit)
  {
    b.asset == d.coin && b.free >= d.amount && d.coin !in StableCoins
  }

  /** Some balance entry satisfies the condition of line 231 for `d`. */
  predicate Reported(d: Deposit, balances: seq<Balance>)
  {
    exists j :: 0 <= j < |balances| && Matches(balances[j], d)
  }

  /** The coins the scout reports, one per reported deposit, in the order of
      the deposits. */
  function Found(ds: seq<Deposit>, balances: seq<Balance>): (r: seq<string>)
    ensures |r| <= |ds|
    ensures forall i :: 0 <= i < |r| ==> r[i] !in StableCoins
  {
    if ds == [] then []
    else
      var d := ds[|ds| - 1];
      Found(ds[..|ds| - 1], balances) + (if Reported(d, balances) then [d.coin] else [])
  }

  /** Lines 216-234: fetch the filtered history, then the account, then
      report each deposit for which some balance entry of a non-stable coin
      has at least the deposited amount free. The inner loop stops at the first
      such entry, so a deposit is reported once. The sell on line 233 is
      commented out in the source, so reporting (a log line, returned here as
      the reported coin) is all the scout does. */
  method Scout(history: Reply<seq<Deposit>>, account: Reply<seq<Balance>>, now: real)
    returns (r: Reply<seq<string>>)
    ensures history.Raised? ==> r == Raised(history.fault)
    ensures history.Ok? && account.Raised? ==> r == Raised(account.fault)
    ensures history.Ok? && account.Ok? ==> r == Ok(Found(Recent(history.value, now), account.value))
  {
    var _, recent := RecentDeposits(history, now);
    if recent.Raised? {
      return Raised(recent.fault);
    }
    if account.Raised? {
      return Raised(account.fault);
    }
    var ds, balances := recent.value, account.value;
    var found: seq<string> := [];
    for i := 0 to |ds|
      invariant found == Found(ds[..i], balances)
    {
      var d := ds[i];
      assert ds[..i + 1][..i] == ds[..i];
      var j := 0;
      var reported := false;
      while j < |balances|
        invariant 0 <= j <= |balances|
        invariant forall k :: 0 <= k < j ==> !Matches(balances[k], d)
      {
        if balances[j].asset == d.coin && balances[j].free >= d.amount && d.coin !in StableCoins {
          found := found + [d.coin];
          reported := true;
          break;
        }
        j := j + 1;
      }
      assert reported == Reported(d, balances);
    }
    assert ds[..|ds|] == ds;
    return Ok(found);
  }

  /** The scout's report distributes over concatenation of the history: each
      deposit is decided on its own, in order. */
  lemma {:induction false} FoundAppend(a: seq<Deposit>, b: seq<Deposit>, balances: seq<Balance>)
    ensures Found(a + b, balances) == Found(a, balances) + Found(b, balances)
    decreases |b|
  {
    if b == [] {
      assert a + b == a;
    } else {
      assert (a + b)[..|a + b| - 1] == a + b[..|b| - 1];
      FoundAppend(a, b[..|b| - 1], balances);
    }
  }

  /** A coin is reported exactly when one of the deposits is of that coin and
      is reported. */
  lemma {:induction false} FoundMembers(ds: seq<Deposit>, balances: seq<Balance>, coin: string)
    ensures coin in Found(ds, balances) <==>
      exists i :: 0 <= i < |ds| && ds[i].coin == coin && Reported(ds[i], balances)
    decreases |ds|
  {
    if ds != [] {
      var init := ds[..|ds| - 1];
      FoundMembers(init, balances, coin);
      if exists i :: 0 <= i < |init| && init[i].coin == coin && Reported(init[i], balances) {
        var i :| 0 <= i < |init| && init[i].coin == coin && Reported(init[i], balances);
        assert ds[i] == init[i];
      }
      if exists i :: 0 <= i < |ds| && ds[i].coin == coin && Reported(ds[i], balances) {
        var i :| 0 <= i < |ds| && ds[i].coin == coin && Reported(ds[i], balances);
        if i < |init| {
          assert init[i] == ds[i];
        }
      }
    }
  }

  /** A deposit of 1 ETH is reported when 1.5 ETH is free and not when 0.5
      ETH is free; a deposit of a stable coin is never reported. */
  lemma ScoutScenarios(t: int, amount: real, balances: seq<Balance>)
    ensures Found([Deposit("ETH", 1.0, t)], [Balance("ETH", 1.5)]) == ["ETH"]
    ensures Found([Deposit("ETH", 1.0, t)], [Balance("ETH", 0.5)]) == []
    ensures Found([Deposit("USDT", amount, t)], balances) == []
    ensures Found([Deposit("BUSD", amount, t)], balances) == []
  {
    assert "ETH" !in StableCoins by {
      assert "ETH"[0] != "USDT"[0] && "ETH"[0] != "BUSD"[0];
    }
    assert Matches([Balance("ETH", 1.5)][0], Deposit("ETH", 1.0, t));
    assert [Deposit("ETH", 1.0, t)][..0] == [];
    assert [Deposit("USDT", amount, t)][..0] == [];
    assert [Deposit("BUSD", amount, t)][..0] == [];
    assert "USDT" in StableCoins && "BUSD" in StableCoins;
  }
}
