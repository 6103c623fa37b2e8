/** What a request to place or cancel an order does, told in the request's and the tables' own fields. */
module PlacingRules {
  import opened Common
  import opened Balances
  import opened Exchange
  import opened ExchangeSafety
  import opened ExchangeSteps

  /** The account whose money an order is made with: cash for a buy, the asset for a sale. */
  function Source(user: UserId, side: Side, asset: AssetId): Account {
    Account(user, if side == Buy then None else Some(asset))
  }

  /** What placing an order sets aside: its budget for a market buy, its worth for a limit buy, its quantity for a
      sale. */
  function SetAside(req: Request): real {
    if req.side == Sell then req.quantity
    else if req.kind == Limit then Pay(req.quantity, req.price)
    else if req.maxTotalCost.Some? then req.maxTotalCost.value
    else 0.0
  }

  /** A request without a sign error, as the request format admits it. */
  predicate Unsigned(req: Request) {
    && req.quantity >= 0.0 && req.price >= 0.0
    && (req.maxTotalCost == None || req.maxTotalCost.value >= 0.0)
  }

  /** Some stored order already carries the request's idempotency key. */
  predicate Repeated(orders: seq<Order>, req: Request) {
    req.key != None && exists i :: 0 <= i < |orders| && orders[i].key == req.key
  }

  /** The terms on which an asset is traded allow the request: it is listed, active and open; a limit price is within
      the band around the reference price, or the token price where there is none; a market buy names a budget. */
  predicate Allowed(req: Request, listing: Option<Listing>) {
    && listing.Some? && listing.value.isActive && listing.value.isOpen
    && var terms := listing.value;
       var reference := match terms.referencePrice case Some(p) => p case None => terms.tokenPrice;
       && (req.kind == Limit ==>
             reference * (1.0 - terms.band) <= req.price <= reference * (1.0 + terms.band))
       && (req.kind == Market && req.side == Buy ==> req.maxTotalCost.Some? && req.quantity > 0.0)
  }

  lemma Unkeyed(orders: seq<Order>, req: Request)
    ensures KeyUsed(orders, req.key) <==> Repeated(orders, req)
  {
    if KeyUsed(orders, req.key) {
      var o :| o in orders && o.key == req.key;
      var i :| 0 <= i < |orders| && orders[i] == o;
    }
  }

  /** What is locked is what is set aside. */
  lemma LockIsSetAside(req: Request, listing: Listing)
    requires Unsigned(req) && OrderPrice(req, listing).Ok?
    ensures LockOf(req.side, req.quantity, OrderPrice(req, listing).value) == SetAside(req)
  {
    if req.kind.Market? && req.side.Buy? {
      MarketBuyLocksBudget(req, listing);
    }
  }

  /** The terms allow a request exactly when it is given a price. */
  lemma AllowedIff(req: Request, listing: Listing)
    ensures Unsigned(req) ==> (Allowed(req, Some(listing))
                           <==> listing.isActive && listing.isOpen && OrderPrice(req, listing).Ok?)
  {
  }

  lemma FundsLockedIff(s: State, user: UserId, req: Request, listing: Listing)
    requires Safe(s) && Unsigned(req) && OrderPrice(req, listing).Ok?
    ensures LockOrderFunds(s.rows, user, req.side, req.asset, req.quantity, OrderPrice(req, listing).value).Ok?
       <==> 0.0 < SetAside(req) <= Available(s.rows, Source(user, req.side, req.asset))
  {
    LockIsSetAside(req, listing);
    TransferEffect(s.rows, Source(user, req.side, req.asset), SetAside(req), AvailableToLocked);
  }

  /** A request goes through if and only if it repeats a key, or the asset's terms allow it and its owner has what it
      sets aside. */
  lemma PlacedIff(s: State, user: UserId, req: Request, listing: Option<Listing>)
    requires Safe(s)
    ensures CreateOrder(s, user, req, listing).Ok?
       <==> && Unsigned(req)
            && (|| Repeated(s.orders, req)
                || (Allowed(req, listing)
                    && 0.0 < SetAside(req) <= Available(s.rows, Source(user, req.side, req.asset))))
  {
    Unkeyed(s.orders, req);
    if Unsigned(req) && listing.Some? {
      AllowedIff(req, listing.value);
      if OrderPrice(req, listing.value).Ok? {
        FundsLockedIff(s, user, req, listing.value);
      }
    }
  }

  /** Why a request is refused: the first thing wrong with it. */
  lemma RefusedBecause(s: State, user: UserId, req: Request, listing: Option<Listing>)
    requires Safe(s) && CreateOrder(s, user, req, listing).Err?
    ensures CreateOrder(s, user, req, listing).error
         == if !Unsigned(req) then BadRequest
            else if listing.None? then AssetNotFound
            else if !(listing.value.isActive && listing.value.isOpen) then AssetNotTradable
            else if req.kind == Limit && !Allowed(req, listing) then OutsidePriceBand
            else if !Allowed(req, listing) then (if req.maxTotalCost == None then MissingMaxTotalCost else BadRequest)
            else if SetAside(req) <= 0.0 then Ledger(AmountNotPositive)
            else if Source(user, req.side, req.asset) !in s.rows then Ledger(BalanceNotFound)
            else Ledger(InsufficientAvailable)
  {
    Unkeyed(s.orders, req);
    if Unsigned(req) && listing.Some? && OrderPrice(req, listing.value).Ok? {
      LockIsSetAside(req, listing.value);
    }
  }

  /** A repeated key changes nothing, and nothing else is accepted without an effect. */
  lemma RepeatedChangesNothing(s: State, user: UserId, req: Request, listing: Option<Listing>)
    ensures CreateOrder(s, user, req, listing) == Ok(s) <==> Unsigned(req) && Repeated(s.orders, req)
  {
    Unkeyed(s.orders, req);
    var r := CreateOrder(s, user, req, listing);
    if r.Ok? && !Repeated(s.orders, req) {
      assert |r.value.orders| == |s.orders| + 1;
    }
  }

  /** The order a request becomes. A market buy carries its budget per unit, a market sale no price. */
  predicate IsOrderOf(o: Order, user: UserId, req: Request) {
    && (o.user, o.asset, o.side, o.kind, o.key) == (user, req.asset, req.side, req.kind, req.key)
    && (o.quantity, o.filled, o.status) == (req.quantity, 0.0, Open)
    && (req.kind == Limit ==> o.price == req.price)
    && (req.kind == Market && req.side == Sell ==> o.price == 0.0)
    && (req.kind == Market && req.side == Buy ==> Some(Pay(o.quantity, o.price)) == req.maxTotalCost)
  }

  /** Moving an amount between the pockets of one account, and nothing else in the table of balances. */
  ghost predicate PocketsMoved(before: Rows, after: Rows, account: Account, amount: real) {
    forall k ::
      && Locked(after, k) == (if k == account then Locked(before, k) + amount else Locked(before, k))
      && Available(after, k) == (if k == account then Available(before, k) - amount else Available(before, k))
  }

  /** An accepted request enters exactly its order, queues its job, and sets its owner's money aside for it. */
  lemma PlacedEffect(s: State, user: UserId, req: Request, listing: Option<Listing>)
    requires Safe(s) && CreateOrder(s, user, req, listing).Ok? && !Repeated(s.orders, req)
    ensures var after := CreateOrder(s, user, req, listing).value;
            && |after.orders| == |s.orders| + 1
            && after.orders[..|s.orders|] == s.orders
            && IsOrderOf(after.orders[|s.orders|], user, req)
            && PocketsMoved(s.rows, after.rows, Source(user, req.side, req.asset), SetAside(req))
            && after.queue == s.queue + [|s.orders|]
            && (after.trades, after.released) == (s.trades, s.released)
  {
    Unkeyed(s.orders, req);
    LockIsSetAside(req, listing.value);
    TransferEffect(s.rows, Source(user, req.side, req.asset), SetAside(req), AvailableToLocked);
  }

  /** What is left of an order, in the money it was made with. */
  function Left(o: Order): real {
    if o.side == Buy then Pay(o.quantity - o.filled, o.price) else o.quantity - o.filled
  }

  /** Why a cancellation is refused, whatever the state: there is no such order, it is somebody else's, or it is not
      pending, open or partly filled; past these guards only the ledger refuses. */
  lemma CancelRefused(s: State, user: UserId, id: OrderId)
    requires CancelOrder(s, user, id).Err?
    ensures match CancelOrder(s, user, id).error
            case OrderNotFound => id >= |s.orders|
            case NotOwner => id < |s.orders| && s.orders[id].user != user
            case NotCancellable =>
              id < |s.orders| && s.orders[id].user == user && s.orders[id].status !in {Pending, Open, PartiallyFilled}
            case Ledger(_) =>
              id < |s.orders| && s.orders[id].user == user && s.orders[id].status in {Pending, Open, PartiallyFilled}
            case _ => false
  {
  }

  lemma LeftIsLocked(o: Order, k: Account)
    requires o.status in {Open, PartiallyFilled}
    ensures OrderLock(k)(o) == if k == Source(o.user, o.side, o.asset) then Left(o) else 0.0
  {
  }

  lemma CancelMovesPockets(s: State, user: UserId, id: OrderId)
    requires Safe(s) && CancelOrder(s, user, id).Ok?
    requires id < |s.orders| && s.orders[id].user == user && s.orders[id].status in {Open, PartiallyFilled}
    ensures var o := s.orders[id];
            PocketsMoved(s.rows, CancelOrder(s, user, id).value.rows, Source(user, o.side, o.asset), -Left(o))
  {
    CancelSafe(s, user, id);
    forall k {
      LeftIsLocked(s.orders[id], k);
    }
  }

  /** Cancelling goes through for the owner of an order that is open or partly filled; it hands back what is left of the
      order and changes that order's status only. */
  lemma CancelEffect(s: State, user: UserId, id: OrderId)
    requires Safe(s)
    ensures CancelOrder(s, user, id).Ok?
       <==> id < |s.orders| && s.orders[id].user == user && s.orders[id].status in {Open, PartiallyFilled}
    ensures CancelOrder(s, user, id).Ok? ==>
              var o, after := s.orders[id], CancelOrder(s, user, id).value;
              && after.orders == s.orders[id := o.(status := Cancelled)]
              && PocketsMoved(s.rows, after.rows, Source(user, o.side, o.asset), -Left(o))
              && (after.queue, after.trades, after.released) == (s.queue, s.trades, s.released)
  {
    CancelSafe(s, user, id);
    if CancelOrder(s, user, id).Ok? {
      CancelMovesPockets(s, user, id);
    }
  }
}

/** When the worker's job for an order fails, and what becomes of it in the queue. */
module JobRules {
  import opened Common
  import opened Exchange
  import opened ExchangeSafety
  import opened OrderBook
  import opened ExchangeSteps

  /** An order that some sale at price zero stands in the way of. */
  ghost predicate MeetsUnpriced(orders: seq<Order>, id: OrderId)
    requires id < |orders|
  {
    && orders[id].status == Open && orders[id].side == Buy
    && exists i: nat :: i < |orders| && CanTrade(orders[id], orders[i]) && orders[i].price == 0.0
  }

  lemma HeadIsPricedIff(s: State, id: OrderId)
    requires Safe(s) && id < |s.orders| && s.orders[id].side == Buy
    ensures HeadPriced(s.orders, id)
       <==> !exists i: nat :: i < |s.orders| && CanTrade(s.orders[id], s.orders[i]) && s.orders[i].price == 0.0
  {
    var book := Book(s.orders, s.orders[id], |s.orders|);
    BookIsPriceTimeOrder(s.orders, s.orders[id]);
    if book != [] {
      assert book[0] in book;
    }
    forall i: nat | i < |s.orders| && CanTrade(s.orders[id], s.orders[i])
      ensures book != [] && s.orders[book[0]].price <= s.orders[i].price
    {
      var j :| 0 <= j < |book| && book[j] == i;
    }
  }

  /** A job fails only for an open buy that may trade with a sale at price zero. */
  lemma JobFailsIff(s: State, id: OrderId)
    requires Safe(s) && PricesNonNegative(s.orders)
    ensures MatchOrder(s, id).Err? <==> id < |s.orders| && MeetsUnpriced(s.orders, id)
  {
    if id < |s.orders| && s.orders[id].status == Open {
      MatchOrderSafe(s, id);
      PricedWhenHeadIsPriced(s, id);
      if s.orders[id].side == Buy {
        HeadIsPricedIff(s, id);
      }
    }
  }

  /** A worker's step changes nothing at all if and only if there is no such job, or the job fails and has attempts
      left. Otherwise exactly that job leaves the queue; a failed one leaves nothing else behind. */
  lemma FailedJobsAreRetried(s: State, at: nat, lastAttempt: bool)
    requires Safe(s) && PricesNonNegative(s.orders)
    ensures var after := RunJob(s, at, lastAttempt);
            && (after == s <==> at >= |s.queue| || (!lastAttempt && MeetsUnpriced(s.orders, s.queue[at])))
            && (after != s ==>
                  && after.queue == s.queue[..at] + s.queue[at + 1..]
                  && if MeetsUnpriced(s.orders, s.queue[at])
                     then (after.rows, after.orders, after.trades, after.released)
                          == (s.rows, s.orders, s.trades, s.released)
                     else Ok(after.(queue := s.queue)) == MatchOrder(s, s.queue[at]))
  {
    if at < |s.queue| {
      var id := s.queue[at];
      JobFailsIff(s, id);
      assert |s.queue[..at] + s.queue[at + 1..]| == |s.queue| - 1;
      if MatchOrder(s, id).Ok? && s.orders[id].status == Open {
        MatchOrderSafe(s, id);
      }
    }
  }
}

/** What happens to a trade after it has been written. */
module TradeHistory {
  import opened Exchange
  import opened ExchangeSafety
  import opened ExchangeSteps
  import opened SettlementSafety
  import opened ExchangeRuns
  import opened BestExecution

  /** Only the status of a trade ever changes, and a settled or declined one stays as it is. */
  predicate Kept(before: Trade, after: Trade) {
    && after.(status := before.status) == before
    && (before.status in {Settled, Declined} ==> after == before)
  }

  lemma StepKeepsTrade(s: State, step: Step, t: TradeId)
    requires Safe(s) && PricesNonNegative(s.orders) && t < |s.trades|
    ensures t < |Next(s, step).trades| && Kept(s.trades[t], Next(s, step).trades[t])
  {
    match step
    case Create(_, _, _) =>
    case Run(at, _) =>
      if at < |s.queue| && s.orders[s.queue[at]].status == Open && MatchOrder(s, s.queue[at]).Ok? {
        JobWritesPlanned(s, s.queue[at]);
      }
    case Cancel(_, _) =>
    case Settle(tick) => TickKeepsTrade(s, tick, t);
  }

  /** Over every run. */
  lemma {:induction false} TradesAreKept(s: State, steps: seq<Step>, t: TradeId)
    requires Safe(s) && t < |s.trades|
    ensures t < |Play(s, steps).trades| && Kept(s.trades[t], Play(s, steps).trades[t])
    decreases |steps|
  {
    if steps != [] {
      SafePrices(s);
      NextSafe(s, steps[0]);
      StepKeepsTrade(s, steps[0], t);
      TradesAreKept(Next(s, steps[0]), steps[1..], t);
    }
  }
}
