/** Placing, matching and cancelling keep the exchange safe, and when they go through. */
module ExchangeSteps {
  import opened Common
  import opened Sums
  import opened Balances
  import opened Allocation
  import opened Exchange
  import opened ExchangeSafety
  import opened OrderBook

  /** A step's outcome is safe, moves no money in or out, and leaves the queue to the worker. */
  ghost predicate StillSafe(before: State, after: State) {
    Safe(after) && SameTotals(before.rows, after.rows) && after.queue == before.queue
  }

  lemma SafePrices(s: State)
    requires Sound(s)
    ensures PricesNonNegative(s.orders)
  {
  }

  // ----- Matching

  /** What the job of an open order plans fits the tables it was planned on. */
  lemma PlanIsPlanned(s: State, id: OrderId)
    requires Sound(s) && id < |s.orders| && s.orders[id].status == Open
    ensures PricesNonNegative(s.orders)
    ensures var plan := PlanFor(s.orders, id);
            && Planned(s, id, s.orders, plan.book, plan.alloc, 0.0)
            && Feasible(plan.levels, plan.alloc)
            && Quantity(plan.alloc) <= s.orders[id].quantity
            && (BudgetOf(s.orders[id]).Some? ==> Cost(plan.levels, plan.alloc) <= BudgetOf(s.orders[id]).value)
  {
    var o := s.orders[id];
    var plan := PlanFor(s.orders, id);
    PlanAffordable(s.orders, id, plan.book);
    AllocateWithin(plan.levels, o.quantity, BudgetOf(o), 0.0);
    BookSorted(s.orders, o, |s.orders|);
    forall j | 0 <= j < |plan.book|
      ensures plan.book[j] != id && Eligible(o, s.orders[plan.book[j]])
      ensures 0.0 <= plan.alloc[j] <= Remaining(s.orders[plan.book[j]])
    {
      BookMember(s.orders, o, j);
      assert plan.levels[j] == LevelOf(s.orders[plan.book[j]]);
    }
  }

  /** Writing off a live order drops exactly its own claim. */
  lemma WriteOff(s: State, id: OrderId)
    requires Sound(s) && id < |s.orders| && Live(s.orders[id])
    ensures Sound(s.(orders := s.orders[id := s.orders[id].(status := Cancelled)]))
    ensures forall k :: Claims(s.(orders := s.orders[id := s.orders[id].(status := Cancelled)]), k)
                     == Claims(s, k) - OrderLock(k)(s.orders[id])
  {
    var after := s.(orders := s.orders[id := s.orders[id].(status := Cancelled)]);
    forall k
      ensures Claims(after, k) == Claims(s, k) - OrderLock(k)(s.orders[id])
    {
      SumUpdate(s.orders, id, s.orders[id].(status := Cancelled), OrderLock(k));
    }
  }

  /** Releasing money from a locked pocket leaves the other tables alone. */
  lemma ReleaseSound(s: State, rows: Rows)
    requires Sound(s) && NonNegative(rows)
    ensures Sound(s.(rows := rows))
    ensures forall k :: Claims(s.(rows := rows), k) == Claims(s, k)
  {
  }

  /** What a market order still holds when its fills are done: a buy its unspent budget, a sale its remainder. */
  function Residue(o: Order, remaining: real, spent: real): real {
    if o.side.Buy? then Pay(o.quantity, o.price) - spent else remaining
  }

  /** The residue is the order's claim plus the extra, and it is there in the locked pocket. */
  lemma ResidueIsLocked(s: State, id: OrderId, remaining: real, spent: real, extra: real)
    requires Sound(s) && id < |s.orders|
    requires s.orders[id].status in {Open, PartiallyFilled, Filled}
    requires remaining == Remaining(s.orders[id])
    requires CoveredBut(s, CollateralOf(s.orders[id]), extra)
    requires extra == ExtraAfter(s.orders[id], 0.0, s.orders[id].filled, spent)
    requires s.orders[id].kind.Market?
    ensures var account := CollateralOf(s.orders[id]);
            && Residue(s.orders[id], remaining, spent) == OrderLock(account)(s.orders[id]) + extra
            && Residue(s.orders[id], remaining, spent) <= Locked(s.rows, account)
  {
    var o := s.orders[id];
    PayAdds(remaining, o.filled, o.price);
    assert Pay(0.0, o.price) == 0.0;
    OwnClaimLocked(s, id);
  }

  function Released(rows: Rows, account: Account, amount: real): Rows {
    if amount > 0.0 && account in rows
    then rows[account := Row(rows[account].available + amount, rows[account].locked - amount)]
    else rows
  }

  lemma ReleasedEffect(rows: Rows, account: Account, amount: real)
    requires NonNegative(rows) && 0.0 <= amount <= Locked(rows, account)
    ensures amount > 0.0 ==>
              Transferred(rows, account, amount, LockedToAvailable) == Ok(Released(rows, account, amount))
    ensures NonNegative(Released(rows, account, amount))
    ensures SameTotals(rows, Released(rows, account, amount))
    ensures forall k :: Locked(Released(rows, account, amount), k) == Locked(rows, k) - At(k, account, amount)
    ensures forall k :: Available(Released(rows, account, amount), k) == Available(rows, k) + At(k, account, amount)
  {
    TransferEffect(rows, account, amount, LockedToAvailable);
  }

  /** The orders once a market order is closed. */
  function Closed(s: State, id: OrderId): State
    requires id < |s.orders|
  {
    if Live(s.orders[id]) then s.(orders := s.orders[id := s.orders[id].(status := Cancelled)]) else s
  }

  lemma ClosedClaims(s: State, id: OrderId)
    requires Sound(s) && id < |s.orders|
    ensures Sound(Closed(s, id))
    ensures forall k :: Claims(Closed(s, id), k) == Claims(s, k) - OrderLock(k)(s.orders[id])
  {
    if Live(s.orders[id]) {
      WriteOff(s, id);
    }
  }

  lemma CloseMarketIs(s: State, id: OrderId, remaining: real, spent: real, residue: real, rows: Rows)
    requires id < |s.orders| && s.orders[id].kind.Market? && OrderOk(s.orders[id])
    requires s.orders[id].status in {Open, PartiallyFilled, Filled}
    requires remaining == Remaining(s.orders[id]) && residue == Residue(s.orders[id], remaining, spent) >= 0.0
    requires rows == Released(s.rows, CollateralOf(s.orders[id]), residue)
    requires residue > 0.0 ==> Transferred(s.rows, CollateralOf(s.orders[id]), residue, LockedToAvailable) == Ok(rows)
    ensures CloseMarket(s, id, remaining, spent) == Ok(Closed(s, id).(rows := rows))
  {
  }

  lemma ClosedStillSafe(s: State, id: OrderId, residue: real, extra: real, rows: Rows)
    requires Sound(s) && id < |s.orders| && CoveredBut(s, CollateralOf(s.orders[id]), extra)
    requires residue == OrderLock(CollateralOf(s.orders[id]))(s.orders[id]) + extra
    requires NonNegative(rows) && SameTotals(s.rows, rows)
    requires forall k :: Locked(rows, k) == Locked(s.rows, k) - At(k, CollateralOf(s.orders[id]), residue)
    ensures StillSafe(s, Closed(s, id).(rows := rows))
  {
    ClosedClaims(s, id);
    ReleaseSound(Closed(s, id), rows);
  }

  /** Closing a market order always goes through, hands its residue back and clears the extra. */
  lemma CloseMarketSafe(s: State, id: OrderId, remaining: real, spent: real, extra: real)
    requires Sound(s) && id < |s.orders| && s.orders[id].kind.Market?
    requires s.orders[id].status in {Open, PartiallyFilled, Filled}
    requires remaining == Remaining(s.orders[id])
    requires CoveredBut(s, CollateralOf(s.orders[id]), extra)
    requires extra == ExtraAfter(s.orders[id], 0.0, s.orders[id].filled, spent)
    requires s.orders[id].side.Buy? ==> spent <= Pay(s.orders[id].quantity, s.orders[id].price)
    ensures CloseMarket(s, id, remaining, spent).Ok?
    ensures var after := CloseMarket(s, id, remaining, spent).value;
            && StillSafe(s, after)
            && after.orders == Closed(s, id).orders
            && forall k :: Available(after.rows, k) == Available(s.rows, k)
                         + At(k, CollateralOf(s.orders[id]), Residue(s.orders[id], remaining, spent))
  {
    var o := s.orders[id];
    var residue := Residue(o, remaining, spent);
    var rows := Released(s.rows, CollateralOf(o), residue);
    ResidueIsLocked(s, id, remaining, spent, extra);
    ReleasedEffect(s.rows, CollateralOf(o), residue);
    ClosedStillSafe(s, id, residue, extra, rows);
    CloseMarketIs(s, id, remaining, spent, residue, rows);
  }

  /** The matching part of a job: it goes through exactly when no match is at price zero. */
  lemma MatchesSafe(s: State, id: OrderId)
    requires Safe(s) && PricesNonNegative(s.orders)
    requires id < |s.orders| && s.orders[id].status == Open
    ensures MakersWithin(Fills(s.orders, id), |s.orders|)
    ensures ApplyFills(s, id, Fills(s.orders, id)).Ok? <==> AllPriced(Fills(s.orders, id))
    ensures AllPriced(Fills(s.orders, id)) ==>
              var o, plan := s.orders[id], PlanFor(s.orders, id);
              var mid := ApplyFills(s, id, Fills(s.orders, id)).value;
              var extra := ExtraAfter(o, 0.0, Quantity(plan.alloc), Cost(plan.levels, plan.alloc));
              && Settles(s, CollateralOf(o), extra, mid)
              && Progressed(s.orders, mid.orders, id, plan.book, plan.alloc)
  {
    var o, plan, fills := s.orders[id], PlanFor(s.orders, id), Fills(s.orders, id);
    PlanIsPlanned(s, id);
    var extra := ExtraAfter(o, 0.0, Quantity(plan.alloc), Cost(plan.levels, plan.alloc));
    ApplyFillsSound(s, id, s.orders, plan.book, plan.alloc, 0.0, fills, extra);
    if AllPriced(fills) {
      ApplyFillsProgress(s, id, s.orders, plan.book, plan.alloc, fills);
    }
  }

  /** The order a job was run for, once q of it has been matched. */
  function JobDone(o: Order, q: real): Order {
    o.(filled := q,
       status := if q == o.quantity then Filled
                 else if o.kind.Market? then Cancelled
                 else if q > 0.0 then PartiallyFilled
                 else Open)
  }

  lemma OrdersWhenDone(s: State, id: OrderId, o: Order, filled: real)
    requires id < |s.orders| && OrderOk(o) && o.status == Open && 0.0 <= filled <= o.quantity
    requires s.orders[id] == Progress(o, filled)
    ensures s.orders[id := JobDone(o, filled)] == if o.kind.Market? then Closed(s, id).orders else s.orders
  {
  }

  lemma CloseAfterFills(s: State, id: OrderId, o: Order, filled: real, remaining: real, cost: real)
    requires remaining == o.quantity - filled
    requires Sound(s) && id < |s.orders|
    requires OrderOk(o) && o.status == Open && 0.0 <= filled <= o.quantity
    requires s.orders[id] == Progress(o, filled)
    requires CoveredBut(s, CollateralOf(o), ExtraAfter(o, 0.0, filled, cost))
    requires BudgetOf(o).Some? ==> cost <= BudgetOf(o).value
    ensures var closing := CloseMarket(s, id, remaining, cost);
            && closing.Ok?
            && StillSafe(s, closing.value)
            && closing.value.orders == s.orders[id := JobDone(o, filled)]
  {
    OrdersWhenDone(s, id, o, filled);
    if o.kind.Market? {
      CloseMarketSafe(s, id, remaining, cost, ExtraAfter(o, 0.0, filled, cost));
    }
  }

  lemma MatchOrderUnfolds(s: State, id: OrderId, mid: Result<State, LedgerError>)
    requires PricesNonNegative(s.orders) && id < |s.orders| && s.orders[id].status == Open
    requires MakersWithin(Fills(s.orders, id), |s.orders|)
    requires mid == ApplyFills(s, id, Fills(s.orders, id))
    ensures mid.Err? ==> MatchOrder(s, id) == Err(mid.error)
    ensures mid.Ok? ==>
              && id < |mid.value.orders|
              && MatchOrder(s, id) == CloseMarket(mid.value, id, Unfilled(s.orders, id), Spent(s.orders, id))
  {
    ApplyFillsKeepsIds(s, id, Fills(s.orders, id));
  }

  lemma StillSafeThrough(s: State, mid: State, after: State)
    requires SameTotals(s.rows, mid.rows) && mid.queue == s.queue && StillSafe(mid, after)
    ensures StillSafe(s, after)
  {
  }

  lemma MatchOrderCommits(s: State, id: OrderId, mid: State)
    requires Safe(s) && PricesNonNegative(s.orders)
    requires id < |s.orders| && s.orders[id].status == Open && MakersWithin(Fills(s.orders, id), |s.orders|)
    requires ApplyFills(s, id, Fills(s.orders, id)) == Ok(mid) && AllPriced(Fills(s.orders, id))
    ensures MatchOrder(s, id).Ok? && StillSafe(s, MatchOrder(s, id).value)
  {
    var o, plan := s.orders[id], PlanFor(s.orders, id);
    MatchesSafe(s, id);
    PlanIsPlanned(s, id);
    QuantityNonNegative(plan.alloc);
    MatchOrderUnfolds(s, id, Ok(mid));
    CloseAfterFills(mid, id, o, Quantity(plan.alloc), Unfilled(s.orders, id), Spent(s.orders, id));
    StillSafeThrough(s, mid, CloseMarket(mid, id, Unfilled(s.orders, id), Spent(s.orders, id)).value);
  }

  /** A job of an open order goes through exactly when none of its matches is at price zero; then everything stays
      covered and no money appears or disappears. */
  lemma MatchOrderSafe(s: State, id: OrderId)
    requires Safe(s) && PricesNonNegative(s.orders)
    requires id < |s.orders| && s.orders[id].status == Open
    ensures MatchOrder(s, id).Ok? <==> AllPriced(Fills(s.orders, id))
    ensures MatchOrder(s, id).Ok? ==> StillSafe(s, MatchOrder(s, id).value)
  {
    MatchesSafe(s, id);
    var mid := ApplyFills(s, id, Fills(s.orders, id));
    if AllPriced(Fills(s.orders, id)) {
      MatchOrderCommits(s, id, mid.value);
    } else {
      MatchOrderUnfolds(s, id, mid);
    }
  }

  /** A buy does not meet a sale at price zero at the head of its book. */
  predicate HeadPriced(orders: seq<Order>, id: OrderId)
    requires id < |orders|
  {
    var book := Book(orders, orders[id], |orders|);
    orders[id].side.Buy? && book != [] ==> orders[book[0]].price > 0.0
  }

  /** The query sorts by price, so only the first entry of a sell book can tell whether a match is at price zero. */
  lemma PricedWhenHeadIsPriced(s: State, id: OrderId)
    requires Safe(s) && PricesNonNegative(s.orders)
    requires id < |s.orders| && s.orders[id].status == Open
    ensures AllPriced(Fills(s.orders, id)) <==> HeadPriced(s.orders, id)
  {
    var o, plan := s.orders[id], PlanFor(s.orders, id);
    PlanIsPlanned(s, id);
    BookSorted(s.orders, o, |s.orders|);
    if HeadPriced(s.orders, id) {
      forall j | 0 <= j < |plan.book|
        ensures s.orders[plan.book[j]].price > 0.0
      {
        BookMember(s.orders, o, j);
      }
      PricedFills(s.orders, plan.book, plan.alloc, o.filled);
    } else {
      BookMember(s.orders, o, 0);
      HeadAtZero(s.orders, id, plan);
    }
  }

  /** A buy takes something from a sale at price zero at the head of its book, whatever its budget. */
  lemma HeadAtZero(orders: seq<Order>, id: OrderId, plan: Plan)
    requires PricesNonNegative(orders) && id < |orders| && plan == PlanFor(orders, id) && plan.book != []
    requires OrderOk(orders[id]) && OrderOk(orders[plan.book[0]]) && orders[plan.book[0]].status == Open
    requires orders[plan.book[0]].price == 0.0
    ensures !AllPriced(Fills(orders, id))
  {
    var o := orders[id];
    var q := Min(o.quantity, plan.levels[0].depth);
    assert plan.levels[0] == LevelOf(orders[plan.book[0]]);
    assert Pay(q, 0.0) == 0.0 && Pay(o.quantity, o.price) >= 0.0;
    assert plan.alloc[0] == q > 0.0;
    assert Fills(orders, id)[0].price == 0.0;
  }

  lemma {:induction false} PricedFills(orders: seq<Order>, book: seq<OrderId>, alloc: seq<real>, takerFilled: real)
    requires |alloc| == |book| && Within(book, |orders|)
    requires forall j :: 0 <= j < |book| ==> orders[book[j]].price > 0.0
    ensures AllPriced(FillsFor(orders, book, alloc, takerFilled))
  {
    if book != [] {
      PricedFills(orders, book[1..], alloc[1..], takerFilled + if alloc[0] <= 0.0 then 0.0 else alloc[0]);
    }
  }

  // ----- Cancelling

  /** The owner of a live order can always cancel it, and gets exactly its claim back. */
  lemma CancelSafe(s: State, user: UserId, id: OrderId)
    requires Safe(s)
    ensures CancelOrder(s, user, id).Ok? <==> id < |s.orders| && s.orders[id].user == user && Live(s.orders[id])
    ensures CancelOrder(s, user, id).Ok? ==>
              var after := CancelOrder(s, user, id).value;
              var account := CollateralOf(s.orders[id]);
              && StillSafe(s, after)
              && after.orders == s.orders[id := s.orders[id].(status := Cancelled)]
              && (forall k :: Available(after.rows, k) == Available(s.rows, k) + OrderLock(k)(s.orders[id]))
              && (forall k :: Locked(after.rows, k) == Locked(s.rows, k) - OrderLock(k)(s.orders[id]))
              && Claims(after, account) == Claims(s, account) - OrderLock(account)(s.orders[id])
    ensures CancelOrder(s, user, id).Err? ==>
              CancelOrder(s, user, id).error == if id >= |s.orders| then OrderNotFound
                                                else if s.orders[id].user != user then NotOwner
                                                else NotCancellable
  {
    if id < |s.orders| && s.orders[id].user == user && Live(s.orders[id]) {
      var o := s.orders[id];
      var amount := LockOf(o.side, Remaining(o), o.price);
      PayPositive(Remaining(o), o.price);
      OwnClaimLocked(s, id);
      ReleasedEffect(s.rows, CollateralOf(o), amount);
      WriteOff(s, id);
      var rows := Released(s.rows, CollateralOf(o), amount);
      ReleaseSound(s.(orders := s.orders[id := o.(status := Cancelled)]), rows);
    }
  }

  // ----- Placing

  lemma {:induction false} NothingTraded(trades: seq<Trade>, n: nat)
    requires forall t :: 0 <= t < |trades| ==> TradeOk(trades[t], n)
    ensures Sum(trades, TradedBy(n)) == 0.0
  {
    if trades != [] {
      NothingTraded(trades[..|trades| - 1], n);
    }
  }

  lemma PlacedPrice(req: Request, listing: Listing)
    requires WellFormed(req) && OrderPrice(req, listing).Ok?
    ensures OrderPrice(req, listing).value >= 0.0
    ensures req.side.Buy? && Pay(req.quantity, OrderPrice(req, listing).value) > 0.0 ==>
              req.quantity > 0.0 && OrderPrice(req, listing).value > 0.0
  {
    if req.kind.Market? && req.side.Buy? {
      assert req.maxTotalCost.value / req.quantity >= 0.0;
    }
  }

  /** A market buy locks exactly its budget. */
  lemma MarketBuyLocksBudget(req: Request, listing: Listing)
    requires WellFormed(req) && req.kind.Market? && req.side.Buy? && OrderPrice(req, listing).Ok?
    ensures LockOf(Buy, req.quantity, OrderPrice(req, listing).value) == req.maxTotalCost.value
  {
    var price := req.maxTotalCost.value / req.quantity;
    assert price * req.quantity == req.maxTotalCost.value;
  }

  /** The tables once an order is entered and its funds are locked. */
  lemma EnteredSound(s: State, o: Order, rows: Rows)
    requires Sound(s) && NonNegative(rows) && OrderOk(o) && o.status == Open
    ensures Sound(s.(rows := rows, orders := s.orders + [o], queue := s.queue + [|s.orders|]))
  {
    NothingTraded(s.trades, |s.orders|);
  }

  lemma EnteredClaims(s: State, o: Order, rows: Rows)
    ensures forall k :: Claims(s.(rows := rows, orders := s.orders + [o], queue := s.queue + [|s.orders|]), k)
                     == Claims(s, k) + OrderLock(k)(o)
  {
    EnteredOrder(s.orders, o);
  }

  lemma EnteredOrder(orders: seq<Order>, o: Order)
    ensures forall k :: Sum(orders + [o], OrderLock(k)) == Sum(orders, OrderLock(k)) + OrderLock(k)(o)
  {
    forall k
      ensures Sum(orders + [o], OrderLock(k)) == Sum(orders, OrderLock(k)) + OrderLock(k)(o)
    {
      SumSnoc(orders, o, OrderLock(k));
    }
  }

  ghost predicate Placed(s: State, after: State, user: UserId, req: Request) {
    && |after.orders| == |s.orders| + 1
    && after.orders[..|s.orders|] == s.orders
    && after.queue == s.queue + [|s.orders|]
    && after.trades == s.trades
    && var o := after.orders[|s.orders|];
       && (o.user, o.side, o.kind, o.asset, o.quantity) == (user, req.side, req.kind, req.asset, req.quantity)
       && o.status == Open
       && o.filled == 0.0
       && (o.kind.Limit? ==> o.price == req.price)
  }

  /** The order that a request enters, and the balances with its funds locked. */
  lemma CreateUnfolds(s: State, user: UserId, req: Request, listing: Option<Listing>) returns (o: Order, rows: Rows)
    requires CreateOrder(s, user, req, listing).Ok? && CreateOrder(s, user, req, listing).value != s
    ensures CreateOrder(s, user, req, listing).value
         == s.(rows := rows, orders := s.orders + [o], queue := s.queue + [|s.orders|])
    ensures Transferred(s.rows, CollateralOf(o), LockOf(o.side, o.quantity, o.price), AvailableToLocked) == Ok(rows)
    ensures OrderOk(o) && (o.status, o.filled) == (Open, 0.0) && (o.kind.Limit? ==> o.price == req.price)
    ensures (o.user, o.side, o.kind, o.asset, o.quantity) == (user, req.side, req.kind, req.asset, req.quantity)
  {
    var price := OrderPrice(req, listing.value).value;
    PlacedPrice(req, listing.value);
    o := Order(user, req.asset, req.side, req.kind, price, req.quantity, 0.0, Open, req.key);
    rows := LockOrderFunds(s.rows, user, req.side, req.asset, req.quantity, price).value;
  }

  lemma EnteredSafe(s: State, o: Order, rows: Rows)
    requires Safe(s) && OrderOk(o) && o.status == Open && o.filled == 0.0
    requires Transferred(s.rows, CollateralOf(o), LockOf(o.side, o.quantity, o.price), AvailableToLocked) == Ok(rows)
    ensures Safe(s.(rows := rows, orders := s.orders + [o], queue := s.queue + [|s.orders|]))
    ensures SameTotals(s.rows, rows)
  {
    TransferEffect(s.rows, CollateralOf(o), LockOf(o.side, o.quantity, o.price), AvailableToLocked);
    EnteredSound(s, o, rows);
    EnteredClaims(s, o, rows);
  }

  /** Placing an order locks what it claims, from its own owner's available pocket, and queues it. */
  lemma CreateSafe(s: State, user: UserId, req: Request, listing: Option<Listing>)
    requires Safe(s) && CreateOrder(s, user, req, listing).Ok?
    ensures var after := CreateOrder(s, user, req, listing).value;
            && Safe(after)
            && SameTotals(s.rows, after.rows)
            && (after == s || Placed(s, after, user, req))
  {
    if CreateOrder(s, user, req, listing).value != s {
      var o, rows := CreateUnfolds(s, user, req, listing);
      EnteredSafe(s, o, rows);
    }
  }

  /** Cancelling an order that nothing has matched undoes placing it: every balance is as before. */
  lemma CancelUndoesCreate(s: State, user: UserId, req: Request, listing: Option<Listing>)
    requires Safe(s) && CreateOrder(s, user, req, listing).Ok? && CreateOrder(s, user, req, listing).value != s
    ensures var placed := CreateOrder(s, user, req, listing).value;
            && CancelOrder(placed, user, |s.orders|).Ok?
            && CancelOrder(placed, user, |s.orders|).value.rows == s.rows
  {
  }

  // ----- Changing a limit price

  lemma PayZero(q: real, d: real)
    requires q > 0.0
    ensures Pay(q, d) == 0.0 <==> d == 0.0
  {
    if d > 0.0 {
      assert Pay(q, d) > 0.0;
    } else if d < 0.0 {
      assert Pay(q, -d) > 0.0;
    }
  }

  /** The one order update outside the step system: it rewrites the price and leaves the balances alone. */
  function Repriced(s: State, id: OrderId, price: real): State
    requires id < |s.orders|
  {
    s.(orders := s.orders[id := s.orders[id].(price := price)])
  }

  /** Repricing an open order keeps the locked pockets covered exactly when it is a sale or the price stays. */
  lemma RepricingCoveredIff(s: State, id: OrderId, price: real)
    requires Safe(s) && id < |s.orders| && s.orders[id].status == Open && price > 0.0
    ensures Covered(Repriced(s, id, price)) <==> s.orders[id].side.Sell? || price == s.orders[id].price
  {
    var o := s.orders[id];
    forall k
      ensures Claims(Repriced(s, id, price), k)
           == Claims(s, k) - OrderLock(k)(o) + OrderLock(k)(o.(price := price))
    {
      SumUpdate(s.orders, id, o.(price := price), OrderLock(k));
    }
    if o.side.Buy? {
      PaySplits(Remaining(o), price, o.price);
      PayZero(Remaining(o), o.price - price);
      assert Covered(Repriced(s, id, price)) ==>
          Locked(s.rows, CollateralOf(o)) == Claims(Repriced(s, id, price), CollateralOf(o));
    }
  }
}

/** Cancelling a list of orders, one transaction each. */
module BulkCancellation {
  import opened Common
  import opened Balances
  import opened Exchange
  import opened ExchangeSafety
  import opened ExchangeSteps

  /** The tables after a bulk cancellation, and the error each cancellation met, if any. */
  datatype Cancelling = Cancelling(tables: State, results: seq<Option<OrderError>>)

  function CancelAll(s: State, user: UserId, ids: seq<OrderId>): Cancelling {
    if ids == [] then Cancelling(s, [])
    else
      var n := |ids| - 1;
      var earlier := CancelAll(s, user, ids[..n]);
      match CancelOrder(earlier.tables, user, ids[n])
      case Ok(after) => Cancelling(after, earlier.results + [None])
      case Err(e) => Cancelling(earlier.tables, earlier.results + [Some(e)])
  }

  function CountNone(results: seq<Option<OrderError>>): nat {
    if results == [] then 0
    else CountNone(results[..|results| - 1]) + if results[|results| - 1].None? then 1 else 0
  }

  /** The entries answered without an error. */
  function Successes(results: seq<Option<OrderError>>): set<nat> {
    set n: nat | n < |results| && results[n].None? :: n
  }

  lemma SuccessesSnoc(results: seq<Option<OrderError>>, last: Option<OrderError>)
    ensures Successes(results + [last]) == if last.None? then Successes(results) + {|results|} else Successes(results)
  {
    var more := results + [last];
    assert forall n: nat :: n < |results| ==> more[n] == results[n];
    assert more[|results|] == last;
  }

  /** The number of successes is the number of entries without an error. */
  lemma {:induction false} CountsSuccesses(results: seq<Option<OrderError>>)
    ensures CountNone(results) == |Successes(results)|
  {
    if results != [] {
      var n := |results| - 1;
      CountsSuccesses(results[..n]);
      SuccessesSnoc(results[..n], results[n]);
      assert results == results[..n] + [results[n]];
    }
  }

  /** An order of the list that is its caller's own and live. */
  predicate Cancellable(s: State, user: UserId, id: OrderId) {
    id < |s.orders| && s.orders[id].user == user && Live(s.orders[id])
  }

  /** What the caller is told about the n-th entry of the list, judged by the tables as they were before. */
  function Answer(s: State, user: UserId, ids: seq<OrderId>, n: nat): Option<OrderError>
    requires n < |ids|
  {
    if ids[n] >= |s.orders| then Some(OrderNotFound)
    else if s.orders[ids[n]].user != user then Some(NotOwner)
    else if !Live(s.orders[ids[n]]) || ids[n] in ids[..n] then Some(NotCancellable)
    else None
  }

  /** The claims of the cancellable orders among the first n that are in a list, each counted once. */
  function Freed(s: State, user: UserId, ids: seq<OrderId>, k: Account, n: nat): real
    requires n <= |s.orders|
  {
    if n == 0 then 0.0
    else
      Freed(s, user, ids, k, n - 1)
      + if n - 1 in ids && Cancellable(s, user, n - 1) then OrderLock(k)(s.orders[n - 1]) else 0.0
  }

  lemma {:induction false} FreedMore(s: State, user: UserId, ids: seq<OrderId>, id: OrderId, k: Account, n: nat)
    requires n <= |s.orders|
    ensures Freed(s, user, ids + [id], k, n)
         == Freed(s, user, ids, k, n)
          + if id < n && id !in ids && Cancellable(s, user, id) then OrderLock(k)(s.orders[id]) else 0.0
  {
    if n > 0 {
      FreedMore(s, user, ids, id, k, n - 1);
    }
  }

  lemma {:induction false} NothingFreed(s: State, user: UserId, k: Account, n: nat)
    requires n <= |s.orders|
    ensures Freed(s, user, [], k, n) == 0.0
  {
    if n > 0 {
      NothingFreed(s, user, k, n - 1);
    }
  }

  /** Exactly the cancellable orders of the list are cancelled, no other order changes, every available pocket grows by
      exactly the claims that were dropped on its account, and the answers say which is which. */
  ghost predicate Cancelled(s: State, user: UserId, ids: seq<OrderId>, after: State, results: seq<Option<OrderError>>) {
    && Safe(after) && SameTotals(s.rows, after.rows)
    && (after.queue, after.trades, after.released) == (s.queue, s.trades, s.released)
    && |after.orders| == |s.orders|
    && (forall i: nat :: i < |s.orders| ==>
          after.orders[i] == if i in ids && Cancellable(s, user, i) then s.orders[i].(status := Exchange.Cancelled)
                             else s.orders[i])
    && (forall k :: Available(after.rows, k) == Available(s.rows, k) + Freed(s, user, ids, k, |s.orders|))
    && |results| == |ids|
    && (forall n :: 0 <= n < |ids| ==> results[n] == Answer(s, user, ids, n))
  }

  lemma CancelledMore(
    s: State, user: UserId, ids: seq<OrderId>, id: OrderId, mid: State, results: seq<Option<OrderError>>,
    after: State, result: Option<OrderError>)
    requires Cancelled(s, user, ids, mid, results)
    requires match CancelOrder(mid, user, id)
             case Ok(next) => after == next && result == None
             case Err(e) => after == mid && result == Some(e)
    ensures Cancelled(s, user, ids + [id], after, results + [result])
  {
    CancelSafe(mid, user, id);
    forall k
      ensures Available(after.rows, k) == Available(s.rows, k) + Freed(s, user, ids + [id], k, |s.orders|)
    {
      FreedMore(s, user, ids, id, k, |s.orders|);
    }
    forall n | 0 <= n < |ids| + 1
      ensures (results + [result])[n] == Answer(s, user, ids + [id], n)
    {
      if n < |ids| {
        assert (ids + [id])[..n] == ids[..n];
      } else {
        assert (ids + [id])[..n] == ids;
      }
    }
  }

  lemma NoneCancelled(s: State, user: UserId)
    requires Safe(s)
    ensures Cancelled(s, user, [], s, [])
  {
    forall k {
      NothingFreed(s, user, k, |s.orders|);
    }
  }

  lemma OneMoreCancelled(s: State, user: UserId, ids: seq<OrderId>, id: OrderId, more: seq<OrderId>)
    requires Cancelled(s, user, ids, CancelAll(s, user, ids).tables, CancelAll(s, user, ids).results)
    requires more == ids + [id]
    ensures Cancelled(s, user, more, CancelAll(s, user, more).tables, CancelAll(s, user, more).results)
  {
    var earlier, all := CancelAll(s, user, ids), CancelAll(s, user, more);
    assert more[..|ids|] == ids;
    var next := CancelOrder(earlier.tables, user, id);
    var result := if next.Ok? then None else Some(next.error);
    assert all.results == earlier.results + [result];
    CancelledMore(s, user, ids, id, earlier.tables, earlier.results, all.tables, result);
  }

  /** What a bulk cancellation does. */
  lemma {:induction false} BulkCancelEffect(s: State, user: UserId, ids: seq<OrderId>)
    requires Safe(s)
    ensures Cancelled(s, user, ids, CancelAll(s, user, ids).tables, CancelAll(s, user, ids).results)
  {
    if ids == [] {
      NoneCancelled(s, user);
    } else {
      var n := |ids| - 1;
      BulkCancelEffect(s, user, ids[..n]);
      OneMoreCancelled(s, user, ids[..n], ids[n], ids);
    }
  }
}
