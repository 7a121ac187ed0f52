/** `sell_alt`: one attempt at selling an asset for a quote asset, and the
    same attempt wrapped in `retry(20)`.

    The exchange is a script: for each kind of client call, the sequence of
    replies its successive calls produce, and a cursor per sequence saying how
    many of them have been consumed. Every loop of the protocol consumes one
    reply per iteration, so a run either finishes or reaches the end of a
    script (`OutOfScript`), at which point the real bot would still be
    polling. Sleeps and log lines are left out. */
module SellProtocol {
  import opened Wrappers
  import opened MarketData
  import opened LotSize
  import opened Retry

  /** The placement reply of a market sell; only its id is used afterwards. */
  datatype Order = Order(orderId: int, symbol: string)

  /** A reply of `get_order`. */
  datatype OrderStatus = OrderStatus(orderId: int, status: string)

  const Filled: string := "FILLED"

  /** The scripted replies of the four client calls the protocol makes.
      `sells` are replies of `order_market_sell`, which may be `None`. */
  datatype Exchange = Exchange(
    symbolInfo: seq<Reply<seq<Filter>>>,
    accounts: seq<Reply<seq<Balance>>>,
    sells: seq<Reply<Option<Order>>>,
    orderQueries: seq<Reply<OrderStatus>>)

  /** How many replies of each kind have been consumed. */
  datatype Cursors = Cursors(info: nat, account: nat, sell: nat, query: nat)

  /** A client call, as recorded in the trace of an attempt. */
  datatype Call =
    | GetSymbolInfo(symbol: string)
    | GetAccount
    | MarketSell(symbol: string, quantity: real)
    | GetOrder(symbol: string, orderId: int)

  /** How a phase of the protocol ends. */
  datatype Phase<+T> = Done(value: T) | Failed(fault: Fault) | OutOfScript

  /** What a completed attempt established: the order it returns, the quantity
      it sold and the balance snapshot taken before placing the order. */
  datatype Sale = Sale(order: Order, quantity: real, balance: real)

  /** Every cursor is within its script. */
  predicate InScript(ex: Exchange, c: Cursors)
  {
    && c.info <= |ex.symbolInfo|
    && c.account <= |ex.accounts|
    && c.sell <= |ex.sells|
    && c.query <= |ex.orderQueries|
  }

  /** No cursor moved backwards. */
  predicate NotBefore(c0: Cursors, c: Cursors)
  {
    c0.info <= c.info && c0.account <= c.account && c0.sell <= c.sell && c0.query <= c.query
  }

  /** The `j`-th balance reading of `asset` (`get_currency_balance`). */
  function Reading(ex: Exchange, j: nat, asset: string): Reply<Option<real>>
    requires j < |ex.accounts|
  {
    CurrencyBalance(ex.accounts[j], asset)
  }

  /** A status reply that reports the order as filled. */
  predicate IsFilled(reply: Reply<OrderStatus>)
  {
    reply.Ok? && reply.value.status == Filled
  }

  /** Every call in `calls` is `call`. */
  predicate Repeats(calls: seq<Call>, call: Call)
  {
    forall i :: 0 <= i < |calls| ==> calls[i] == call
  }

  /** Lines 153-158: `order_market_sell` is called until its reply is not
      `None`; an exception ends the attempt. */
  method PlaceOrder(ex: Exchange, from: nat, symbol: string, quantity: real)
    returns (r: Phase<Order>, next: nat, calls: seq<Call>)
    requires from <= |ex.sells|
    ensures from <= next <= |ex.sells|
    ensures |calls| == next - from && Repeats(calls, MarketSell(symbol, quantity))
    ensures forall j :: from <= j < next - 1 ==> ex.sells[j] == Ok(None)
    ensures r.Done? ==> from < next && ex.sells[next - 1] == Ok(Some(r.value))
    ensures r.Failed? ==> from < next && ex.sells[next - 1] == Raised(r.fault)
    ensures r.OutOfScript? ==> next == |ex.sells| && (from < next ==> ex.sells[next - 1] == Ok(None))
  {
    next, calls := from, [];
    var order: Option<Order> := None;
    while order.None?
      invariant from <= next <= |ex.sells|
      invariant |calls| == next - from && Repeats(calls, MarketSell(symbol, quantity))
      invariant forall j :: from <= j < next - 1 ==> ex.sells[j] == Ok(None)
      invariant from < next ==> ex.sells[next - 1] == Ok(order)
      invariant order.Some? ==> from < next
      decreases |ex.sells| - next
    {
      if next == |ex.sells| {
        r := OutOfScript;
        return;
      }
      var reply := ex.sells[next];
      next, calls := next + 1, calls + [MarketSell(symbol, quantity)];
      if reply.Raised? {
        r := Failed(reply.fault);
        return;
      }
      order := reply.value;
    }
    r := Done(order.value);
  }

  /** Lines 166-177: `get_order` is called until it does not raise. Both kinds
      of exception are caught, so this phase never fails. */
  method AwaitRecorded(ex: Exchange, from: nat, symbol: string, orderId: int)
    returns (r: Phase<OrderStatus>, next: nat, calls: seq<Call>)
    requires from <= |ex.orderQueries|
    ensures from <= next <= |ex.orderQueries|
    ensures |calls| == next - from && Repeats(calls, GetOrder(symbol, orderId))
    ensures !r.Failed?
    ensures forall j :: from <= j < next - 1 ==> ex.orderQueries[j].Raised?
    ensures r.Done? ==> from < next && ex.orderQueries[next - 1] == Ok(r.value)
    ensures r.OutOfScript? ==> next == |ex.orderQueries| && (from < next ==> ex.orderQueries[next - 1].Raised?)
  {
    next, calls := from, [];
    var recorded := false;
    var stat: OrderStatus := OrderStatus(orderId, "");
    while !recorded
      invariant from <= next <= |ex.orderQueries|
      invariant |calls| == next - from && Repeats(calls, GetOrder(symbol, orderId))
      invariant forall j :: from <= j < next - 1 ==> ex.orderQueries[j].Raised?
      invariant recorded ==> from < next && ex.orderQueries[next - 1] == Ok(stat)
      invariant !recorded && from < next ==> ex.orderQueries[next - 1].Raised?
      decreases |ex.orderQueries| - next
    {
      if next == |ex.orderQueries| {
        r := OutOfScript;
        return;
      }
      var reply := ex.orderQueries[next];
      next, calls := next + 1, calls + [GetOrder(symbol, orderId)];
      if reply.Ok? {
        stat := reply.value;
        recorded := true;
      }
    }
    r := Done(stat);
  }

  /** Lines 179-190: while the last status read is not FILLED, `get_order` is
      called again; an exception leaves the last status in place. The phase
      ends at the first reply that reports FILLED. */
  method AwaitFilled(ex: Exchange, from: nat, symbol: string, orderId: int, first: OrderStatus)
    returns (r: Phase<OrderStatus>, next: nat, calls: seq<Call>)
    requires from <= |ex.orderQueries|
    ensures from <= next <= |ex.orderQueries|
    ensures |calls| == next - from && Repeats(calls, GetOrder(symbol, orderId))
    ensures !r.Failed?
    ensures first.status == Filled ==> next == from && r == Done(first)
    ensures r.Done? && next == from ==> r.value == first
    ensures forall j :: from <= j < next - 1 ==> !IsFilled(ex.orderQueries[j])
    ensures r.Done? ==> r.value.status == Filled && (from < next ==> ex.orderQueries[next - 1] == Ok(r.value))
    ensures r.OutOfScript? ==>
      next == |ex.orderQueries| && first.status != Filled && (from < next ==> !IsFilled(ex.orderQueries[next - 1]))
  {
    next, calls := from, [];
    var stat := first;
    while stat.status != Filled
      invariant from <= next <= |ex.orderQueries|
      invariant |calls| == next - from && Repeats(calls, GetOrder(symbol, orderId))
      invariant first.status == Filled ==> next == from && stat == first
      invariant next == from ==> stat == first
      invariant forall j :: from <= j < next - 1 ==> !IsFilled(ex.orderQueries[j])
      invariant from < next && stat.status == Filled ==> ex.orderQueries[next - 1] == Ok(stat)
      invariant from < next && stat.status != Filled ==> !IsFilled(ex.orderQueries[next - 1])
      decreases |ex.orderQueries| - next
    {
      if next == |ex.orderQueries| {
        r := OutOfScript;
        return;
      }
      var reply := ex.orderQueries[next];
      next, calls := next + 1, calls + [GetOrder(symbol, orderId)];
      if reply.Ok? {
        stat := reply.value;
      }
    }
    r := Done(stat);
  }

  /** Every balance reading in [from, to) succeeded and was at least `bal`. */
  predicate StillAtLeast(ex: Exchange, asset: string, bal: real, from: nat, to: nat)
    requires to <= |ex.accounts|
  {
    forall j :: from <= j < to ==>
      Reading(ex, j, asset).Ok? && Reading(ex, j, asset).value.Some? && Reading(ex, j, asset).value.value >= bal
  }

  /** The balance phase, started at reading `from`, failed at reading `to - 1`
      with `f`. Every earlier reading was at least the snapshot. The failing
      reading raised `f` itself, or it succeeded and the comparison with
      `None` raised `TypeError`. With a `None` snapshot the first comparison
      already fails. */
  predicate BalanceFailed(ex: Exchange, asset: string, bal: Option<real>, from: nat, to: nat, f: Fault)
  {
    && from < to <= |ex.accounts|
    && (bal.Some? ==> StillAtLeast(ex, asset, bal.value, from, to - 1))
    && (bal.None? ==> to == from + 1)
    && (|| Reading(ex, to - 1, asset) == Raised(f)
        || (&& f == TypeError
            && Reading(ex, to - 1, asset).Ok?
            && (bal.None? || Reading(ex, to - 1, asset).value.None?)))
  }

  /** The balance phase, started at reading `from`, reached the end of the
      script: every reading was at least the snapshot, and with a `None`
      snapshot there was no reading left to make at all. */
  predicate BalanceRanOut(ex: Exchange, asset: string, bal: Option<real>, from: nat)
  {
    && from <= |ex.accounts|
    && (bal.Some? ==> StillAtLeast(ex, asset, bal.value, from, |ex.accounts|))
    && (bal.None? ==> from == |ex.accounts|)
  }

  /** Lines 192-194: the balance is read until a reading is strictly below the
      snapshot `bal`. Comparing with `None` on either side raises `TypeError`,
      and an exception from the client ends the attempt. */
  method AwaitBalanceDrop(ex: Exchange, from: nat, asset: string, bal: Option<real>)
    returns (r: Phase<real>, next: nat, calls: seq<Call>)
    requires from <= |ex.accounts|
    ensures from <= next <= |ex.accounts|
    ensures |calls| == next - from && Repeats(calls, GetAccount)
    ensures from < next && bal.Some? ==> StillAtLeast(ex, asset, bal.value, from, next - 1)
    ensures r.Done? ==>
      bal.Some? && from < next && Reading(ex, next - 1, asset) == Ok(Some(r.value)) && r.value < bal.value
    ensures r.Failed? ==> BalanceFailed(ex, asset, bal, from, next, r.fault)
    ensures r.OutOfScript? ==> next == |ex.accounts| && BalanceRanOut(ex, asset, bal, from)
    ensures bal.None? && from < |ex.accounts| ==>
      && next == from + 1
      && r == (if Reading(ex, from, asset).Raised? then Failed(Reading(ex, from, asset).fault) else Failed(TypeError))
  {
    next, calls := from, [];
    if next == |ex.accounts| {
      r := OutOfScript;
      return;
    }
    var reading := Reading(ex, next, asset);
    next, calls := next + 1, calls + [GetAccount];
    if reading.Raised? {
      r := Failed(reading.fault);
      return;
    }
    var newbal := reading.value;
    while newbal.Some? && bal.Some? && newbal.value >= bal.value
      invariant from < next <= |ex.accounts|
      invariant |calls| == next - from && Repeats(calls, GetAccount)
      invariant Reading(ex, next - 1, asset) == Ok(newbal)
      invariant bal.Some? ==> StillAtLeast(ex, asset, bal.value, from, next - 1)
      invariant bal.None? ==> next == from + 1
      decreases |ex.accounts| - next
    {
      if next == |ex.accounts| {
        r := OutOfScript;
        return;
      }
      reading := Reading(ex, next, asset);
      next, calls := next + 1, calls + [GetAccount];
      if reading.Raised? {
        r := Failed(reading.fault);
        return;
      }
      newbal := reading.value;
    }
    if newbal.None? || bal.None? {
      r := Failed(TypeError);
      return;
    }
    r := Done(newbal.value);
  }

  /** The placement phase, started at reply `from`, ended with `order` at reply
      `to - 1`: every reply before it was `None`. */
  predicate PlacedAt(ex: Exchange, from: nat, to: nat, order: Order)
  {
    && from < to <= |ex.sells|
    && ex.sells[to - 1] == Ok(Some(order))
    && forall j :: from <= j < to - 1 ==> ex.sells[j] == Ok(None)
  }

  /** Status reply `at` is the first one from `from` on that reports FILLED. */
  predicate FirstFilledAt(ex: Exchange, from: nat, at: nat)
  {
    && from <= at < |ex.orderQueries|
    && IsFilled(ex.orderQueries[at])
    && forall j :: from <= j < at ==> !IsFilled(ex.orderQueries[j])
  }

  /** Balance reading `at` is the first one from `from` on that is strictly
      below `bal`; every reading before it succeeded and was at least `bal`. */
  predicate DroppedAt(ex: Exchange, asset: string, bal: real, from: nat, at: nat)
  {
    && from <= at < |ex.accounts|
    && StillAtLeast(ex, asset, bal, from, at)
    && Reading(ex, at, asset).Ok? && Reading(ex, at, asset).value.Some?
    && Reading(ex, at, asset).value.value < bal
  }

  /** The quantity line 147 computes from the attempt's first symbol-info reply
      and first balance reading, when both are usable. */
  function PlannedQuantity(ex: Exchange, start: Cursors, alt: string): Option<real>
  {
    if start.info < |ex.symbolInfo| && ex.symbolInfo[start.info].Ok?
       && LotSizePrecision(ex.symbolInfo[start.info].value).Some?
       && start.account < |ex.accounts| && Reading(ex, start.account, alt).Ok?
       && Reading(ex, start.account, alt).value.Some?
    then Some(Quantize(Reading(ex, start.account, alt).value.value,
                       LotSizePrecision(ex.symbolInfo[start.info].value).value))
    else None
  }

  /** What the execution phases (lines 153-198), started at `mid`, observed
      before ending at `c`: the order is the first placement reply that was not
      `None`, the status polls stopped at the first reply reporting FILLED, and
      the balance polls stopped at the first reading below `sale.balance`. */
  predicate Executed(ex: Exchange, mid: Cursors, c: Cursors, alt: string, sale: Sale)
  {
    && InScript(ex, c)
    && PlacedAt(ex, mid.sell, c.sell, sale.order)
    && mid.query < c.query && FirstFilledAt(ex, mid.query, c.query - 1)
    && mid.account < c.account && DroppedAt(ex, alt, sale.balance, mid.account, c.account - 1)
  }

  /** What a completed attempt that began at `start` and ended at `c` has
      observed, in the order of the source: the quantity was computed from the
      first balance reading (line 147), `sale.balance` is the second reading
      (line 151), and the execution phases then behaved as `Executed` says. */
  predicate Settled(ex: Exchange, start: Cursors, c: Cursors, alt: string, sale: Sale)
  {
    && c.info == start.info + 1
    && PlannedQuantity(ex, start, alt) == Some(sale.quantity)
    && start.account + 1 < |ex.accounts|
    && Reading(ex, start.account + 1, alt) == Ok(Some(sale.balance))
    && Executed(ex, AfterPlan(start), c, alt, sale)
  }

  /** Every market sell in `calls` sells `quantity` of `symbol`. */
  predicate SellsOnly(calls: seq<Call>, symbol: string, quantity: real)
  {
    forall i :: 0 <= i < |calls| && calls[i].MarketSell? ==> calls[i] == MarketSell(symbol, quantity)
  }

  /** Every market sell in `calls` sells `quantity` of `symbol` and every order
      query asks about `orderId`. */
  predicate AboutOrder(calls: seq<Call>, symbol: string, quantity: real, orderId: int)
  {
    && SellsOnly(calls, symbol, quantity)
    && forall i :: 0 <= i < |calls| && calls[i].GetOrder? ==> calls[i] == GetOrder(symbol, orderId)
  }

  /** Neither a market sell nor an order query is among `calls`. */
  predicate NoOrderCalls(calls: seq<Call>)
  {
    forall i :: 0 <= i < |calls| ==> !calls[i].MarketSell? && !calls[i].GetOrder?
  }

  /** How many client calls were made between `start` and `c`. */
  function Consumed(start: Cursors, c: Cursors): int
  {
    (c.info - start.info) + (c.account - start.account) + (c.sell - start.sell) + (c.query - start.query)
  }

  /** Where the execution phases start once planning has read the symbol
      information and two balances. */
  function AfterPlan(start: Cursors): Cursors
  {
    start.(info := start.info + 1, account := start.account + 2)
  }

  /** Planning (lines 141-151) succeeds: a quantity can be computed and the
      snapshot read of line 151 does not raise. */
  predicate PlanSucceeded(ex: Exchange, start: Cursors, alt: string)
  {
    && PlannedQuantity(ex, start, alt).Some?
    && start.account + 1 < |ex.accounts|
    && Reading(ex, start.account + 1, alt).Ok?
  }

  /** Planning, begun at `start`, raised `f` and ended at `c`, in the order of
      the source: the symbol information raised; the first balance read
      raised; there is no `LOT_SIZE` filter (`KeyError`) or no balance of the
      asset (`TypeError`); or the snapshot read raised. */
  predicate PlanFailed(ex: Exchange, start: Cursors, alt: string, c: Cursors, f: Fault)
  {
    && start.info < |ex.symbolInfo| && c.info == start.info + 1
    && c.sell == start.sell && c.query == start.query
    && (|| (ex.symbolInfo[start.info] == Raised(f) && c.account == start.account)
        || (&& ex.symbolInfo[start.info].Ok?
            && start.account < |ex.accounts| && c.account == start.account + 1
            && Reading(ex, start.account, alt) == Raised(f))
        || (&& ex.symbolInfo[start.info].Ok?
            && start.account < |ex.accounts| && c.account == start.account + 1
            && Reading(ex, start.account, alt).Ok? && PlannedQuantity(ex, start, alt).None?
            && f == (if LotSizePrecision(ex.symbolInfo[start.info].value).None? then KeyError else TypeError))
        || (&& PlannedQuantity(ex, start, alt).Some?
            && start.account + 1 < |ex.accounts| && c.account == start.account + 2
            && Reading(ex, start.account + 1, alt) == Raised(f)))
  }

  /** Planning, begun at `start`, found no reply left for the symbol
      information, the first balance read or the snapshot read. */
  predicate PlanRanOut(ex: Exchange, start: Cursors, alt: string, c: Cursors)
  {
    || (start.info == |ex.symbolInfo| && c == start)
    || (&& start.info < |ex.symbolInfo| && ex.symbolInfo[start.info].Ok?
        && start.account == |ex.accounts| && c == start.(info := start.info + 1))
    || (&& PlannedQuantity(ex, start, alt).Some?
        && start.account + 1 == |ex.accounts| && c == start.(info := start.info + 1, account := start.account + 1))
  }

  /** Placement replies `from` up to `to - 1` were `None` and reply `to - 1`
      is an order. */
  predicate Placed(ex: Exchange, from: nat, to: nat)
  {
    && from < to <= |ex.sells|
    && ex.sells[to - 1].Ok? && ex.sells[to - 1].value.Some?
    && forall j :: from <= j < to - 1 ==> ex.sells[j] == Ok(None)
  }

  /** Placement replies `from` up to `to - 1` were `None` and reply `to - 1`
      raised `f`. */
  predicate PlacementRaised(ex: Exchange, from: nat, to: nat, f: Fault)
  {
    && from < to <= |ex.sells|
    && ex.sells[to - 1] == Raised(f)
    && forall j :: from <= j < to - 1 ==> ex.sells[j] == Ok(None)
  }

  /** Every placement reply from `from` to the end of the script is `None`. */
  predicate PlacementRanOut(ex: Exchange, from: nat)
  {
    from <= |ex.sells| && forall j :: from <= j < |ex.sells| ==> ex.sells[j] == Ok(None)
  }

  /** No status reply in [from, to) reports FILLED. */
  predicate NeverFilled(ex: Exchange, from: nat, to: nat)
  {
    from <= to <= |ex.orderQueries| && forall j :: from <= j < to ==> !IsFilled(ex.orderQueries[j])
  }

  /** The execution phases, started at `mid` with snapshot `bal`, raised `f`
      and ended at `c`: the placement raised, or the order was placed and seen
      FILLED and then the balance phase failed. The status phases never
      raise. */
  predicate ExecFailed(ex: Exchange, mid: Cursors, c: Cursors, alt: string, bal: Option<real>, f: Fault)
  {
    && c.info == mid.info
    && (|| (c.query == mid.query && c.account == mid.account && PlacementRaised(ex, mid.sell, c.sell, f))
        || (&& Placed(ex, mid.sell, c.sell)
            && mid.query < c.query && FirstFilledAt(ex, mid.query, c.query - 1)
            && BalanceFailed(ex, alt, bal, mid.account, c.account, f)))
  }

  /** The execution phases, started at `mid` with snapshot `bal`, ended at
      `c` because the phase in progress found no reply left. */
  predicate ExecRanOut(ex: Exchange, mid: Cursors, c: Cursors, alt: string, bal: Option<real>)
  {
    && c.info == mid.info
    && (|| (&& c.sell == |ex.sells| && c.query == mid.query && c.account == mid.account
            && PlacementRanOut(ex, mid.sell))
        || (&& Placed(ex, mid.sell, c.sell)
            && c.query == |ex.orderQueries| && NeverFilled(ex, mid.query, c.query)
            && c.account == mid.account)
        || (&& Placed(ex, mid.sell, c.sell)
            && mid.query < c.query && FirstFilledAt(ex, mid.query, c.query - 1)
            && c.account == |ex.accounts| && BalanceRanOut(ex, alt, bal, mid.account)))
  }

  /** An attempt begun at `start` raised `f` and ended at `c`. */
  predicate AttemptFailed(ex: Exchange, start: Cursors, c: Cursors, alt: string, f: Fault)
  {
    || PlanFailed(ex, start, alt, c, f)
    || (&& PlanSucceeded(ex, start, alt)
        && ExecFailed(ex, AfterPlan(start), c, alt, Reading(ex, start.account + 1, alt).value, f))
  }

  /** An attempt begun at `start` ended at `c` because a script ran out. */
  predicate AttemptRanOut(ex: Exchange, start: Cursors, c: Cursors, alt: string)
  {
    || PlanRanOut(ex, start, alt, c)
    || (&& PlanSucceeded(ex, start, alt)
        && ExecRanOut(ex, AfterPlan(start), c, alt, Reading(ex, start.account + 1, alt).value))
  }

  /** An attempt begun at `start` ended at `c` with outcome `r`. */
  predicate AttemptRun(ex: Exchange, start: Cursors, c: Cursors, alt: string, r: Phase<Sale>)
  {
    match r
    case Done(sale) => Settled(ex, start, c, alt, sale)
    case Failed(f) => AttemptFailed(ex, start, c, alt, f)
    case OutOfScript => AttemptRanOut(ex, start, c, alt)
  }

  /** A first balance reading of 0 plans a sell of quantity 0: nothing between
      the reading and the placement refuses it (with `SellAlt`'s trace, every
      market sell of such an attempt is for 0). */
  lemma ZeroBalancePlansZeroSale(ex: Exchange, start: Cursors, alt: string)
    requires start.info < |ex.symbolInfo| && ex.symbolInfo[start.info].Ok?
    requires LotSizePrecision(ex.symbolInfo[start.info].value).Some?
    requires start.account < |ex.accounts| && Reading(ex, start.account, alt) == Ok(Some(0.0))
    ensures PlannedQuantity(ex, start, alt) == Some(0.0)
  {
    QuantizeZero(LotSizePrecision(ex.symbolInfo[start.info].value).value);
  }

  /** Lines 141-151: the lot-size precision, the quantity to sell and the
      balance snapshot. On success the phase yields the quantity and the
      snapshot, which may be `None`. */
  method PlanSale(ex: Exchange, start: Cursors, alt: string, quote: string)
    returns (r: Phase<(real, Option<real>)>, c: Cursors, calls: seq<Call>)
    requires InScript(ex, start)
    ensures InScript(ex, c) && NotBefore(start, c) && c.sell == start.sell && c.query == start.query
    ensures |calls| == Consumed(start, c) && NoOrderCalls(calls)
    ensures |calls| <= 3 && calls == [GetSymbolInfo(alt + quote), GetAccount, GetAccount][..|calls|]
    ensures !r.OutOfScript? ==> c.info == start.info + 1
    ensures r.Done? ==>
      && PlanSucceeded(ex, start, alt) && c == AfterPlan(start)
      && PlannedQuantity(ex, start, alt) == Some(r.value.0)
      && Reading(ex, start.account + 1, alt) == Ok(r.value.1)
    ensures r.Failed? ==> PlanFailed(ex, start, alt, c, r.fault)
    ensures r.OutOfScript? ==> PlanRanOut(ex, start, alt, c)
    ensures PlannedQuantity(ex, start, alt).None? && start.info < |ex.symbolInfo| && start.account < |ex.accounts|
      && ex.symbolInfo[start.info].Ok? && ex.accounts[start.account].Ok?
      ==> r == Failed(if LotSizePrecision(ex.symbolInfo[start.info].value).None? then KeyError else TypeError)
  {
    c, calls := start, [];

    // lines 141-145: the trading rules and the ticks dictionary
    if c.info == |ex.symbolInfo| {
      r := OutOfScript;
      return;
    }
    var info := ex.symbolInfo[c.info];
    c, calls := c.(info := c.info + 1), [GetSymbolInfo(alt + quote)];
    if info.Raised? {
      r := Failed(info.fault);
      return;
    }
    var ticks := ReadLotSize(info.value, alt);

    // lines 147-148: the balance is read first, then `ticks[alt]` is looked
    // up, then the balance takes part in the arithmetic
    if c.account == |ex.accounts| {
      r := OutOfScript;
      return;
    }
    var available := Reading(ex, c.account, alt);
    c, calls := c.(account := c.account + 1), calls + [GetAccount];
    if available.Raised? {
      r := Failed(available.fault);
      return;
    }
    if alt !in ticks {
      r := Failed(KeyError);
      return;
    }
    if available.value.None? {
      r := Failed(TypeError);
      return;
    }
    var quantity := Quantize(available.value.value, ticks[alt]);

    // line 151: the snapshot the settle loop compares against
    if c.account == |ex.accounts| {
      r := OutOfScript;
      return;
    }
    var snapshot := Reading(ex, c.account, alt);
    c, calls := c.(account := c.account + 1), calls + [GetAccount];
    if snapshot.Raised? {
      r := Failed(snapshot.fault);
      return;
    }
    r := Done((quantity, snapshot.value));
  }

  /** Lines 153-198: place the order, wait until it is recorded and filled,
      then wait until the balance drops below the snapshot `bal`. */
  method ExecuteSale(ex: Exchange, mid: Cursors, alt: string, symbol: string, quantity: real, bal: Option<real>)
    returns (r: Phase<Sale>, c: Cursors, calls: seq<Call>)
    requires InScript(ex, mid)
    ensures InScript(ex, c) && NotBefore(mid, c) && c.info == mid.info
    ensures |calls| == Consumed(mid, c)
    ensures SellsOnly(calls, symbol, quantity)
    ensures forall i :: 0 <= i < |calls| ==> !calls[i].GetSymbolInfo?
    ensures forall i :: 0 <= i < |calls| && calls[i].GetOrder? ==>
      && Placed(ex, mid.sell, c.sell)
      && calls[i] == GetOrder(symbol, ex.sells[c.sell - 1].value.value.orderId)
    ensures r.Failed? ==> ExecFailed(ex, mid, c, alt, bal, r.fault)
    ensures r.OutOfScript? ==> ExecRanOut(ex, mid, c, alt, bal)
    ensures r.Done? ==>
      && r.value.quantity == quantity && bal == Some(r.value.balance)
      && Executed(ex, mid, c, alt, r.value)
      && AboutOrder(calls, symbol, quantity, r.value.order.orderId)
  {
    c := mid;
    var placed, sellNext, sellCalls := PlaceOrder(ex, c.sell, symbol, quantity);
    c, calls := c.(sell := sellNext), sellCalls;
    RepeatsAboutOrder(sellCalls, MarketSell(symbol, quantity), symbol, quantity, 0);
    if placed.Failed? {
      r := Failed(placed.fault);
      return;
    } else if placed.OutOfScript? {
      r := OutOfScript;
      return;
    }
    var order := placed.value;
    assert Placed(ex, mid.sell, c.sell) && ex.sells[c.sell - 1].value.value == order;
    RepeatsAboutOrder(sellCalls, MarketSell(symbol, quantity), symbol, quantity, order.orderId);

    var recorded, queryNext, recordCalls := AwaitRecorded(ex, c.query, symbol, order.orderId);
    c, calls := c.(query := queryNext), calls + recordCalls;
    RepeatsAboutOrder(recordCalls, GetOrder(symbol, order.orderId), symbol, quantity, order.orderId);
    AboutOrderAppend(sellCalls, recordCalls, symbol, quantity, order.orderId);
    if !recorded.Done? {
      r := OutOfScript;
      return;
    }
    var filled, filledNext, fillCalls := AwaitFilled(ex, c.query, symbol, order.orderId, recorded.value);
    ghost var before := calls;
    c, calls := c.(query := filledNext), calls + fillCalls;
    RepeatsAboutOrder(fillCalls, GetOrder(symbol, order.orderId), symbol, quantity, order.orderId);
    AboutOrderAppend(before, fillCalls, symbol, quantity, order.orderId);
    if !filled.Done? {
      r := OutOfScript;
      return;
    }
    assert FirstFilledAt(ex, mid.query, c.query - 1) by {
      forall j | mid.query <= j < c.query - 1 ensures !IsFilled(ex.orderQueries[j]) {
        if j < queryNext - 1 { assert ex.orderQueries[j].Raised?; }
      }
    }

    var dropped, accountNext, settleCalls := AwaitBalanceDrop(ex, c.account, alt, bal);
    before := calls;
    c, calls := c.(account := accountNext), calls + settleCalls;
    RepeatsAboutOrder(settleCalls, GetAccount, symbol, quantity, order.orderId);
    AboutOrderAppend(before, settleCalls, symbol, quantity, order.orderId);
    if dropped.Failed? {
      r := Failed(dropped.fault);
      return;
    } else if dropped.OutOfScript? {
      r := OutOfScript;
      return;
    }
    r := Done(Sale(order, quantity, bal.value));
  }

  /** A trace made of one call that concerns the order concerns only it. */
  lemma RepeatsAboutOrder(calls: seq<Call>, call: Call, symbol: string, quantity: real, orderId: int)
    requires Repeats(calls, call)
    requires call == MarketSell(symbol, quantity) || call == GetOrder(symbol, orderId) || call == GetAccount
    ensures AboutOrder(calls, symbol, quantity, orderId)
  {
  }

  lemma AboutOrderAppend(a: seq<Call>, b: seq<Call>, symbol: string, quantity: real, orderId: int)
    requires AboutOrder(a, symbol, quantity, orderId) && AboutOrder(b, symbol, quantity, orderId)
    ensures AboutOrder(a + b, symbol, quantity, orderId)
  {
    forall i | |a| <= i < |a + b| ensures (a + b)[i] == b[i - |a|] {
    }
  }

  /** One attempt of `sell_alt` (lines 141-198). */
  method SellAlt(ex: Exchange, start: Cursors, alt: string, quote: string)
    returns (r: Phase<Sale>, c: Cursors, calls: seq<Call>)
    requires InScript(ex, start)
    ensures InScript(ex, c) && NotBefore(start, c)
    ensures |calls| == Consumed(start, c)
    ensures !r.OutOfScript? ==> c.info == start.info + 1
    ensures r.Done? ==> Settled(ex, start, c, alt, r.value)
    ensures r.Failed? ==> AttemptFailed(ex, start, c, alt, r.fault)
    ensures r.OutOfScript? ==> AttemptRanOut(ex, start, c, alt)
    ensures AttemptRun(ex, start, c, alt, r)
    ensures c.sell > start.sell ==> PlanSucceeded(ex, start, alt)
    ensures r.Done? ==> AboutOrder(calls, alt + quote, r.value.quantity, r.value.order.orderId)
    ensures forall i :: 0 <= i < |calls| && calls[i].MarketSell? ==>
      PlannedQuantity(ex, start, alt) == Some(calls[i].quantity)
    ensures forall i :: 0 <= i < |calls| && !calls[i].GetAccount? ==> calls[i].symbol == alt + quote
    ensures forall i :: 0 <= i < |calls| && calls[i].GetOrder? ==>
      && Placed(ex, start.sell, c.sell)
      && calls[i].orderId == ex.sells[c.sell - 1].value.value.orderId
    ensures PlannedQuantity(ex, start, alt).None? && start.info < |ex.symbolInfo| && start.account < |ex.accounts|
      && ex.symbolInfo[start.info].Ok? && ex.accounts[start.account].Ok?
      ==> r == Failed(if LotSizePrecision(ex.symbolInfo[start.info].value).None? then KeyError else TypeError)
    ensures PlannedQuantity(ex, start, alt).None? ==> c.sell == start.sell
  {
    var planned, mid, planCalls := PlanSale(ex, start, alt, quote);
    if !planned.Done? {
      r, c, calls := if planned.Failed? then Failed(planned.fault) else OutOfScript, mid, planCalls;
      return;
    }
    var quantity, bal := planned.value.0, planned.value.1;
    var executed, done, execCalls := ExecuteSale(ex, mid, alt, alt + quote, quantity, bal);
    r, c, calls := executed, done, planCalls + execCalls;
    var orderId := if r.Done? then r.value.order.orderId else 0;
    assert AboutOrder(planCalls, alt + quote, quantity, orderId);
    AttemptTrace(ex, start.sell, c.sell, alt + quote, quantity, planCalls, execCalls);
    if r.Done? {
      AboutOrderAppend(planCalls, execCalls, alt + quote, quantity, orderId);
    }
  }

  /** The calls of planning followed by those of execution name the pair,
      sell the planned quantity and ask only about the order placed. */
  lemma AttemptTrace(ex: Exchange, from: nat, to: nat, symbol: string, quantity: real, planCalls: seq<Call>, execCalls: seq<Call>)
    requires |planCalls| <= 3 && planCalls == [GetSymbolInfo(symbol), GetAccount, GetAccount][..|planCalls|]
    requires SellsOnly(execCalls, symbol, quantity)
    requires forall i :: 0 <= i < |execCalls| ==> !execCalls[i].GetSymbolInfo?
    requires forall i :: 0 <= i < |execCalls| && execCalls[i].GetOrder? ==>
      && Placed(ex, from, to)
      && execCalls[i] == GetOrder(symbol, ex.sells[to - 1].value.value.orderId)
    ensures var calls := planCalls + execCalls;
      && (forall i :: 0 <= i < |calls| && calls[i].MarketSell? ==> calls[i] == MarketSell(symbol, quantity))
      && (forall i :: 0 <= i < |calls| && !calls[i].GetAccount? ==> calls[i].symbol == symbol)
      && (forall i :: 0 <= i < |calls| && calls[i].GetOrder? ==>
            Placed(ex, from, to) && calls[i].orderId == ex.sells[to - 1].value.value.orderId)
  {
    var calls := planCalls + execCalls;
    forall i | 0 <= i < |planCalls| ensures calls[i] == (if i == 0 then GetSymbolInfo(symbol) else GetAccount) {
    }
    forall i | |planCalls| <= i < |calls| ensures calls[i] == execCalls[i - |planCalls|] {
    }
    forall i | 0 <= i < |calls| && !calls[i].GetAccount? ensures calls[i].symbol == symbol {
      if i >= |planCalls| {
        var e := execCalls[i - |planCalls|];
        assert !e.GetSymbolInfo?;
      }
    }
  }

  /** The retry count `sell_alt` is decorated with (line 136). */
  const SellRetries: int := 20

  /** What the retry wrapper sees of successive attempts: the order an attempt
      returned or the exception it raised, up to the first attempt that ran out
      of script. */
  function Outcomes(attempts: seq<Phase<Sale>>): seq<Reply<Order>>
  {
    if attempts == [] then []
    else match attempts[0]
      case Done(sale) => [Ok(sale.order)] + Outcomes(attempts[1..])
      case Failed(e) => [Raised(e)] + Outcomes(attempts[1..])
      case OutOfScript => []
  }

  /** With the 20 tries `sell_alt` is decorated with (line 136), the wrapper
      never gives up: whatever the attempts raise, it calls again until one
      returns or a script runs out. */
  lemma SellRetriesNeverGiveUp(attempts: seq<Phase<Sale>>)
    ensures !RetryFrom(SellRetries, Outcomes(attempts), 0).result.GaveUp?
  {
    RetryUntilReturn(SellRetries, Outcomes(attempts));
  }

  /** Attempts that all failed are seen as as many exceptions, and one more
      attempt adds what it returned. */
  lemma {:induction false} OutcomesOfFailures(attempts: seq<Phase<Sale>>, r: Phase<Sale>)
    requires forall i :: 0 <= i < |attempts| ==> attempts[i].Failed?
    ensures |Outcomes(attempts)| == |attempts|
    ensures forall i :: 0 <= i < |attempts| ==> Outcomes(attempts)[i] == Raised(attempts[i].fault)
    ensures Outcomes(attempts + [r]) == Outcomes(attempts) + Outcomes([r])
  {
    if attempts != [] {
      assert (attempts + [r])[1..] == attempts[1..] + [r];
      OutcomesOfFailures(attempts[1..], r);
      forall i | 1 <= i < |attempts| ensures Outcomes(attempts)[i] == Raised(attempts[i].fault) {
        assert attempts[i] == attempts[1..][i - 1];
      }
    } else {
      assert attempts + [r] == [r];
    }
  }

  /** Attempt `i` of `attempts` ran from `bounds[i]` to `bounds[i + 1]`. */
  predicate Chain(ex: Exchange, alt: string, attempts: seq<Phase<Sale>>, bounds: seq<Cursors>)
  {
    && |bounds| == |attempts| + 1
    && forall i :: 0 <= i < |attempts| ==> AttemptRun(ex, bounds[i], bounds[i + 1], alt, attempts[i])
  }

  /** One more attempt, begun where the chain ends, extends the chain. */
  lemma ChainExtend(ex: Exchange, alt: string, attempts: seq<Phase<Sale>>, bounds: seq<Cursors>, r: Phase<Sale>, next: Cursors)
    requires Chain(ex, alt, attempts, bounds)
    requires AttemptRun(ex, bounds[|attempts|], next, alt, r)
    ensures Chain(ex, alt, attempts + [r], bounds + [next])
  {
    var a, b := attempts + [r], bounds + [next];
    forall i | 0 <= i < |a| ensures AttemptRun(ex, b[i], b[i + 1], alt, a[i]) {
      if i < |attempts| {
        assert a[i] == attempts[i] && b[i] == bounds[i] && b[i + 1] == bounds[i + 1];
      }
    }
  }

  /** One attempt as the retry wrapper sees it: its outcome and where it
      left the script, with the calls it made dropped. */
  method Attempt(ex: Exchange, start: Cursors, alt: string, quote: string) returns (r: Phase<Sale>, c: Cursors)
    requires InScript(ex, start)
    ensures InScript(ex, c) && NotBefore(start, c)
    ensures !r.OutOfScript? ==> c.info == start.info + 1
    ensures AttemptRun(ex, start, c, alt, r)
  {
    var calls;
    r, c, calls := SellAlt(ex, start, alt, quote);
  }

  /** `sell_alt` under `retry(howmany)` (lines 100-114 and 136-198): attempts
      are made until one completes; the counter of the wrapper moves from 0 to
      1 at the first failed attempt and no further. Attempt `i` runs from
      `bounds[i]` to `bounds[i + 1]`, and each ends as `AttemptRun` says. */
  method SellAltRetried(howmany: int, ex: Exchange, start: Cursors, alt: string, quote: string)
    returns (result: RetryResult<Order>, c: Cursors, attempts: seq<Phase<Sale>>, bounds: seq<Cursors>)
    requires InScript(ex, start)
    ensures InScript(ex, c) && NotBefore(start, c)
    ensures Chain(ex, alt, attempts, bounds) && bounds[0] == start && bounds[|attempts|] == c
    ensures result == RetryFrom(howmany, Outcomes(attempts), 0).result
    ensures howmany >= 2 ==> !result.GaveUp?
    ensures forall i :: 0 <= i < |attempts| - 1 ==> attempts[i].Failed?
    ensures result.Returned? ==>
      && attempts != [] && attempts[|attempts| - 1].Done?
      && result.value == attempts[|attempts| - 1].value.order
      && Settled(ex, bounds[|attempts| - 1], c, alt, attempts[|attempts| - 1].value)
    ensures result.Exhausted? ==> attempts != [] && attempts[|attempts| - 1].OutOfScript?
    ensures result.GaveUp? ==> forall i :: 0 <= i < |attempts| ==> attempts[i].Failed?
  {
    var counter: nat := 0;
    c, attempts, bounds := start, [], [start];
    while counter < howmany
      invariant InScript(ex, c) && NotBefore(start, c)
      invariant Chain(ex, alt, attempts, bounds) && bounds[0] == start && bounds[|attempts|] == c
      invariant counter == (if attempts == [] then 0 else 1)
      invariant |attempts| >= 2 ==> howmany >= 2
      invariant forall i :: 0 <= i < |attempts| ==> attempts[i].Failed?
      decreases |ex.symbolInfo| - c.info
    {
      var r, next := Attempt(ex, c, alt, quote);
      ChainExtend(ex, alt, attempts, bounds, r, next);
      RetryAfterAttempts(howmany, attempts, r);
      attempts, bounds, c := attempts + [r], bounds + [next], next;
      match r {
        case Done(sale) =>
          result := Returned(sale.order);
          return;
        case OutOfScript =>
          result := Exhausted;
          return;
        case Failed(e) =>
          counter := 1;
      }
    }
    RetryGivesUp(howmany, attempts);
    result := GaveUp;
  }

  /** After attempts that all failed, with tries left, one more attempt that
      completes or runs out decides the wrapper's result, and one that fails
      keeps every attempt failed. */
  lemma RetryAfterAttempts(howmany: int, attempts: seq<Phase<Sale>>, r: Phase<Sale>)
    requires forall i :: 0 <= i < |attempts| ==> attempts[i].Failed?
    requires howmany >= (if attempts == [] then 1 else 2)
    ensures r.Done? ==> RetryFrom(howmany, Outcomes(attempts + [r]), 0).result == Returned(r.value.order)
    ensures r.OutOfScript? ==> RetryFrom(howmany, Outcomes(attempts + [r]), 0).result == Exhausted
  {
    OutcomesOfFailures(attempts, r);
    var fails := Outcomes(attempts);
    match r {
      case Done(sale) =>
        RetryAfterFailures(howmany, fails, sale.order);
        assert Outcomes([r]) == [Ok(sale.order)] by { assert [r][1..] == []; }
      case OutOfScript =>
        RetryAfterFailures(howmany, fails, Order(0, ""));
        assert Outcomes(attempts + [r]) == fails;
      case Failed(e) =>
    }
  }

  /** When the tries run out, the wrapper has given up: no tries at all, or
      one failed attempt with a single try. */
  lemma RetryGivesUp(howmany: int, attempts: seq<Phase<Sale>>)
    requires forall i :: 0 <= i < |attempts| ==> attempts[i].Failed?
    requires howmany <= (if attempts == [] then 0 else 1)
    requires |attempts| >= 2 ==> howmany >= 2
    ensures RetryFrom(howmany, Outcomes(attempts), 0).result == GaveUp
  {
    OutcomesOfFailures(attempts, OutOfScript);
    if attempts == [] {
      RetryNeverCalls(howmany, Outcomes(attempts));
    } else {
      RetryOnce(Outcomes(attempts));
    }
  }
}
