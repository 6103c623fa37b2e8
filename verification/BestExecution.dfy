/** What the owner of a matched order gets: the best the book allows, in price-time order, and every unit of money
    that was locked for it accounted for. */
module BestExecution {
  import opened Common
  import opened Sums
  import opened Balances
  import opened Allocation
  import opened Exchange
  import opened ExchangeSafety
  import opened OrderBook
  import opened ExchangeSteps
  import opened ExchangeRuns

  // ----- What the matches cost

  /** The quote amount of an order's trades. */
  function PaidIn(id: OrderId): Trade -> real {
    (t: Trade) => if id == t.buyOrder || id == t.sellOrder then Pay(t.quantity, t.price) else 0.0
  }

  function Paid(trades: seq<Trade>, id: OrderId): real {
    Sum(trades, PaidIn(id))
  }

  lemma FillTrades(s: State, id: OrderId, f: Fill)
    requires id < |s.orders| && f.maker < |s.orders| && ApplyFill(s, id, f).Ok?
    ensures ApplyFill(s, id, f).value.trades == s.trades + [MatchedTrade(s.orders[id], id, s.orders[f.maker], f)]
    ensures |ApplyFill(s, id, f).value.orders| == |s.orders|
  {
  }

  lemma FillPaid(s: State, id: OrderId, f: Fill)
    requires id < |s.orders| && f.maker < |s.orders| && ApplyFill(s, id, f).Ok?
    ensures |ApplyFill(s, id, f).value.orders| == |s.orders|
    ensures Paid(ApplyFill(s, id, f).value.trades, id) == Paid(s.trades, id) + Pay(f.quantity, f.price)
  {
    FillTrades(s, id, f);
    var trade := MatchedTrade(s.orders[id], id, s.orders[f.maker], f);
    assert PaidIn(id)(trade) == Pay(f.quantity, f.price);
    SumSnoc(s.trades, trade, PaidIn(id));
  }

  lemma CostInTwo(orders: seq<Order>, book: seq<OrderId>, alloc: seq<real>)
    requires |alloc| == |book| && Within(book, |orders|) && book != []
    ensures Cost(Levels(orders, book), alloc)
         == Pay(alloc[0], orders[book[0]].price) + Cost(Levels(orders, book[1..]), alloc[1..])
    ensures alloc[0] == 0.0 ==> Cost(Levels(orders, book), alloc) == Cost(Levels(orders, book[1..]), alloc[1..])
  {
    assert Levels(orders, book)[1..] == Levels(orders, book[1..]);
  }

  /** The taker's trades cost what the plan said. */
  lemma {:induction false} ApplyFillsPaid(
    s: State, id: OrderId, orders: seq<Order>, book: seq<OrderId>, alloc: seq<real>, takerFilled: real,
    fills: seq<Fill>)
    requires id < |s.orders| && |alloc| == |book| && Within(book, |orders|)
    requires forall j :: 0 <= j < |alloc| ==> alloc[j] >= 0.0
    requires fills == FillsFor(orders, book, alloc, takerFilled) && MakersWithin(fills, |s.orders|)
    requires ApplyFills(s, id, fills).Ok?
    ensures Paid(ApplyFills(s, id, fills).value.trades, id) == Paid(s.trades, id) + Cost(Levels(orders, book), alloc)
    decreases |book|
  {
    if book != [] {
      CostInTwo(orders, book, alloc);
      if alloc[0] <= 0.0 {
        ApplyFillsPaid(s, id, orders, book[1..], alloc[1..], takerFilled, fills);
      } else {
        var next, rest := takerFilled + alloc[0], fills[1..];
        FillsTail(orders, book, alloc, takerFilled, next);
        HeadAndTail(s, id, fills);
        FillPaid(s, id, fills[0]);
        ApplyFillsPaid(ApplyFill(s, id, fills[0]).value, id, orders, book[1..], alloc[1..], next, rest);
      }
    }
  }

  /** What a match hands back to the taker: the price improvement of a limit buy. */
  function Improvement(taker: Order, quantity: real, cost: real): real {
    if taker.kind.Limit? && taker.side.Buy? then Pay(quantity, taker.price) - cost else 0.0
  }

  lemma FillLedgerAvailable(rows: Rows, taker: Order, maker: Order, f: Fill, k: Account)
    requires Eligible(taker, maker) && f.price == maker.price && f.quantity > 0.0
    requires FillLedger(rows, taker, maker, f).Ok?
    ensures Available(FillLedger(rows, taker, maker, f).value, k)
         == Available(rows, k) + At(k, Cash(taker.user), Improvement(taker, f.quantity, Pay(f.quantity, f.price)))
  {
    PaySplits(f.quantity, f.price, taker.price);
    if taker.kind.Limit? && taker.side.Buy? {
      PayPositive(f.quantity, taker.price - f.price);
    }
  }

  /** The matches move nobody's available pocket but the taker's. */
  lemma {:induction false} ApplyFillsAvailable(
    s: State, id: OrderId, orders: seq<Order>, book: seq<OrderId>, alloc: seq<real>, fills: seq<Fill>, k: Account)
    requires PlannedBook(s.orders, id, orders, book, alloc)
    requires fills == FillsFor(orders, book, alloc, s.orders[id].filled) && MakersWithin(fills, |s.orders|)
    requires ApplyFills(s, id, fills).Ok?
    ensures Available(ApplyFills(s, id, fills).value.rows, k) == Available(s.rows, k)
          + At(k, Cash(s.orders[id].user),
               Improvement(s.orders[id], Quantity(alloc), Cost(Levels(orders, book), alloc)))
    decreases |book|
  {
    var taker := s.orders[id];
    if book == [] {
      assert Pay(0.0, taker.price) == 0.0;
    } else {
      BookTail(s.orders, id, orders, book, alloc);
      ImprovementInTwo(taker, orders, book, alloc);
      if alloc[0] <= 0.0 {
        ApplyFillsAvailable(s, id, orders, book[1..], alloc[1..], fills, k);
        assert Pay(0.0, taker.price) == Pay(0.0, orders[book[0]].price) == 0.0;
      } else {
        var mid := HeadWritten(s, id, orders, book, alloc, fills);
        HeadAvailable(s, id, orders, book, alloc, fills, k, mid);
        ApplyFillsAvailable(mid, id, orders, book[1..], alloc[1..], fills[1..], k);
      }
    }
  }

  /** The head match of a plan, written. */
  lemma HeadWritten(s: State, id: OrderId, orders: seq<Order>, book: seq<OrderId>, alloc: seq<real>, fills: seq<Fill>)
    returns (mid: State)
    requires PlannedBook(s.orders, id, orders, book, alloc) && book != [] && alloc[0] > 0.0
    requires fills == FillsFor(orders, book, alloc, s.orders[id].filled) && MakersWithin(fills, |s.orders|)
    requires ApplyFills(s, id, fills).Ok?
    ensures fills != [] && ApplyFill(s, id, fills[0]) == Ok(mid) && id < |mid.orders| == |s.orders|
    ensures mid.orders == HeadMatched(s.orders, id, book, alloc) && mid.orders[id] == Advance(s.orders[id], alloc[0])
    ensures mid.trades == s.trades + [MatchedTrade(s.orders[id], id, s.orders[fills[0].maker], fills[0])]
    ensures MakersWithin(fills[1..], |mid.orders|) && ApplyFills(mid, id, fills[1..]) == ApplyFills(s, id, fills)
    ensures fills[1..] == FillsFor(orders, book[1..], alloc[1..], mid.orders[id].filled)
  {
    FillsTail(orders, book, alloc, s.orders[id].filled, s.orders[id].filled + alloc[0]);
    HeadAndTail(s, id, fills);
    ApplyFillIsMatched(s, id, fills[0]);
    mid := ApplyFill(s, id, fills[0]).value;
  }

  lemma HeadAvailable(s: State, id: OrderId, orders: seq<Order>, book: seq<OrderId>, alloc: seq<real>, fills: seq<Fill>,
                      k: Account, mid: State)
    requires PlannedBook(s.orders, id, orders, book, alloc) && book != [] && alloc[0] > 0.0
    requires fills == FillsFor(orders, book, alloc, s.orders[id].filled) && MakersWithin(fills, |s.orders|)
    requires fills != [] && ApplyFill(s, id, fills[0]) == Ok(mid)
    ensures Available(mid.rows, k) == Available(s.rows, k)
          + At(k, Cash(s.orders[id].user),
               Improvement(s.orders[id], alloc[0], Pay(alloc[0], orders[book[0]].price)))
  {
    FillsTail(orders, book, alloc, s.orders[id].filled, s.orders[id].filled + alloc[0]);
    ApplyFillIsMatched(s, id, fills[0]);
    FillLedgerAvailable(s.rows, s.orders[id], s.orders[fills[0].maker], fills[0], k);
  }

  lemma ImprovementInTwo(taker: Order, orders: seq<Order>, book: seq<OrderId>, alloc: seq<real>)
    requires |alloc| == |book| && Within(book, |orders|) && book != []
    ensures Improvement(taker, Quantity(alloc), Cost(Levels(orders, book), alloc))
         == Improvement(taker, alloc[0], Pay(alloc[0], orders[book[0]].price))
          + Improvement(taker, Quantity(alloc[1..]), Cost(Levels(orders, book[1..]), alloc[1..]))
  {
    CostInTwo(orders, book, alloc);
    PayAdds(alloc[0], Quantity(alloc[1..]), taker.price);
  }

  /** The tables between a job's matches and its closing. */
  lemma MatchesWritten(s: State, id: OrderId) returns (mid: State)
    requires Safe(s) && PricesNonNegative(s.orders)
    requires id < |s.orders| && s.orders[id].status == Open && MatchOrder(s, id).Ok?
    ensures MakersWithin(Fills(s.orders, id), |s.orders|) && ApplyFills(s, id, Fills(s.orders, id)) == Ok(mid)
    ensures mid.trades == MatchOrder(s, id).value.trades
  {
    MatchOrderSafe(s, id);
    MatchesSafe(s, id);
    mid := ApplyFills(s, id, Fills(s.orders, id)).value;
    MatchOrderUnfolds(s, id, Ok(mid));
  }

  /** What one job's trades cost its owner. */
  lemma JobPaid(s: State, id: OrderId)
    requires Safe(s) && PricesNonNegative(s.orders)
    requires id < |s.orders| && s.orders[id].status == Open && MatchOrder(s, id).Ok?
    ensures Paid(MatchOrder(s, id).value.trades, id) == Paid(s.trades, id) + Spent(s.orders, id)
  {
    var mid := MatchesWritten(s, id);
    var plan := PlanFor(s.orders, id);
    PlanIsPlanned(s, id);
    ApplyFillsPaid(s, id, s.orders, plan.book, plan.alloc, s.orders[id].filled, Fills(s.orders, id));
  }

  /** What one job hands back to its owner's available pocket. */
  function HandedBack(o: Order, filled: real, spent: real): real {
    (if o.side.Buy? then Improvement(o, filled, spent) else 0.0)
    + (if o.kind.Market? then Residue(o, o.quantity - filled, spent) else 0.0)
  }

  lemma MatchesHandBack(s: State, id: OrderId, mid: State, k: Account)
    requires Safe(s) && PricesNonNegative(s.orders)
    requires id < |s.orders| && s.orders[id].status == Open
    requires MakersWithin(Fills(s.orders, id), |s.orders|) && ApplyFills(s, id, Fills(s.orders, id)) == Ok(mid)
    ensures var o := s.orders[id];
            Available(mid.rows, k) == Available(s.rows, k)
            + At(k, CollateralOf(o), if o.side.Sell? then 0.0
                                     else Improvement(o, Quantity(PlanFor(s.orders, id).alloc), Spent(s.orders, id)))
  {
    var plan := PlanFor(s.orders, id);
    PlanIsPlanned(s, id);
    ApplyFillsAvailable(s, id, s.orders, plan.book, plan.alloc, Fills(s.orders, id), k);
  }

  /** The job of a limit order moves nobody's available pocket but its owner's cash, by the price improvement. */
  lemma LimitJobAvailable(s: State, id: OrderId, k: Account)
    requires Safe(s) && PricesNonNegative(s.orders)
    requires id < |s.orders| && s.orders[id].status == Open && s.orders[id].kind.Limit? && MatchOrder(s, id).Ok?
    ensures var o := s.orders[id];
            Available(MatchOrder(s, id).value.rows, k) == Available(s.rows, k)
            + At(k, Cash(o.user), Improvement(o, Quantity(PlanFor(s.orders, id).alloc), Spent(s.orders, id)))
  {
    var plan, fills := PlanFor(s.orders, id), Fills(s.orders, id);
    MatchOrderSafe(s, id);
    MatchesSafe(s, id);
    PlanIsPlanned(s, id);
    MatchOrderUnfolds(s, id, ApplyFills(s, id, fills));
    LimitClosesAsIs(s, id, ApplyFills(s, id, fills).value);
    ApplyFillsAvailable(s, id, s.orders, plan.book, plan.alloc, fills, k);
  }

  lemma LimitClosesAsIs(s: State, id: OrderId, mid: State)
    requires id < |s.orders| && s.orders[id].kind.Limit? && PricesNonNegative(s.orders)
    requires MakersWithin(Fills(s.orders, id), |s.orders|) && ApplyFills(s, id, Fills(s.orders, id)) == Ok(mid)
    ensures id < |mid.orders|
    ensures forall remaining, spent :: CloseMarket(mid, id, remaining, spent) == Ok(mid)
  {
    ApplyFillsKeepsKind(s, id, Fills(s.orders, id));
  }

  lemma {:induction false} ApplyFillsKeepsKind(s: State, id: OrderId, fills: seq<Fill>)
    requires id < |s.orders| && MakersWithin(fills, |s.orders|) && ApplyFills(s, id, fills).Ok?
    ensures id < |ApplyFills(s, id, fills).value.orders|
    ensures ApplyFills(s, id, fills).value.orders[id].kind == s.orders[id].kind
    decreases |fills|
  {
    if fills != [] {
      ApplyFillsKeepsKind(ApplyFill(s, id, fills[0]).value, id, fills[1..]);
    }
  }

  /** A job moves nobody's available pocket but its owner's. */
  lemma JobHandsBack(s: State, id: OrderId, k: Account)
    requires Safe(s) && PricesNonNegative(s.orders)
    requires id < |s.orders| && s.orders[id].status == Open && MatchOrder(s, id).Ok?
    ensures var o, after, filled := s.orders[id], MatchOrder(s, id).value, Quantity(PlanFor(s.orders, id).alloc);
            Available(after.rows, k)
            == Available(s.rows, k) + At(k, CollateralOf(o), HandedBack(o, filled, Spent(s.orders, id)))
  {
    var o, plan := s.orders[id], PlanFor(s.orders, id);
    MatchOrderSafe(s, id);
    MatchesSafe(s, id);
    PlanIsPlanned(s, id);
    QuantityNonNegative(plan.alloc);
    var mid := ApplyFills(s, id, Fills(s.orders, id)).value;
    MatchOrderUnfolds(s, id, Ok(mid));
    ClosingAccounts(mid, id, o, Quantity(plan.alloc), Unfilled(s.orders, id), Spent(s.orders, id),
                    MatchOrder(s, id).value, k);
    HandedBackInAll(s, id, mid, MatchOrder(s, id).value, k);
  }

  lemma HandedBackInAll(s: State, id: OrderId, mid: State, after: State, k: Account)
    requires Safe(s) && PricesNonNegative(s.orders)
    requires id < |s.orders| && s.orders[id].status == Open
    requires MakersWithin(Fills(s.orders, id), |s.orders|) && ApplyFills(s, id, Fills(s.orders, id)) == Ok(mid)
    requires var o, remaining, spent := s.orders[id], Unfilled(s.orders, id), Spent(s.orders, id);
             Available(after.rows, k) == Available(mid.rows, k)
             + At(k, CollateralOf(o), if o.kind.Market? then Residue(o, remaining, spent) else 0.0)
    ensures var o, filled := s.orders[id], Quantity(PlanFor(s.orders, id).alloc);
            Available(after.rows, k)
            == Available(s.rows, k) + At(k, CollateralOf(o), HandedBack(o, filled, Spent(s.orders, id)))
  {
    MatchesHandBack(s, id, mid, k);
  }

  lemma ClosingAccounts(s: State, id: OrderId, o: Order, filled: real, remaining: real, cost: real, after: State,
                        k: Account)
    requires Sound(s) && id < |s.orders|
    requires remaining == o.quantity - filled && CloseMarket(s, id, remaining, cost) == Ok(after)
    requires OrderOk(o) && o.status == Open && 0.0 <= filled <= o.quantity
    requires s.orders[id] == Progress(o, filled)
    requires CoveredBut(s, CollateralOf(o), ExtraAfter(o, 0.0, filled, cost))
    requires BudgetOf(o).Some? ==> cost <= BudgetOf(o).value
    ensures Available(after.rows, k) == Available(s.rows, k)
          + At(k, CollateralOf(o), if o.kind.Market? then Residue(o, remaining, cost) else 0.0)
  {
    if o.kind.Market? {
      CloseMarketSafe(s, id, remaining, cost, ExtraAfter(o, 0.0, filled, cost));
    }
  }

  // ----- The main results

  /** Nothing is lost between the pockets of a buyer: what the trades cost and what comes back make up the budget of a
      market order, or the filled part of a limit order at its own price. */
  lemma BuyerAccountedFor(s: State, id: OrderId)
    requires Safe(s) && PricesNonNegative(s.orders)
    requires id < |s.orders| && s.orders[id].status == Open && s.orders[id].side.Buy? && MatchOrder(s, id).Ok?
    ensures |MatchOrder(s, id).value.orders| == |s.orders|
    ensures var o, after := s.orders[id], MatchOrder(s, id).value;
            Paid(after.trades, id) - Paid(s.trades, id)
            + Available(after.rows, Cash(o.user)) - Available(s.rows, Cash(o.user))
            == if o.kind.Market? then Pay(o.quantity, o.price) else Pay(after.orders[id].filled, o.price)
  {
    JobPaid(s, id);
    JobHandsBack(s, id, Cash(s.orders[id].user));
    MatchOrderOrders(s, id);
  }

  /** A limit order fills the smaller of its quantity and the eligible book, and no other way of filling as much from
      the same book costs a buyer less or earns a seller more. */
  lemma LimitExecutionIsBest(s: State, id: OrderId, x: seq<real>)
    requires Safe(s) && PricesNonNegative(s.orders)
    requires id < |s.orders| && s.orders[id].status == Open && s.orders[id].kind.Limit? && MatchOrder(s, id).Ok?
    ensures |MatchOrder(s, id).value.orders| == |s.orders|
    ensures var o, after := s.orders[id], MatchOrder(s, id).value;
            var levels := Levels(s.orders, Book(s.orders, o, |s.orders|));
            var paid := Paid(after.trades, id) - Paid(s.trades, id);
            && after.orders[id].filled == Min(o.quantity, Depth(levels))
            && (Feasible(levels, x) && Quantity(x) == after.orders[id].filled ==>
                  if o.side.Buy? then paid <= Cost(levels, x) else paid >= Cost(levels, x))
  {
    var o, plan := s.orders[id], PlanFor(s.orders, id);
    JobPaid(s, id);
    MatchOrderOrders(s, id);
    FillsAllItCan(plan.levels, o.quantity);
    BookLevelsOrdered(s.orders, o);
    if Feasible(plan.levels, x) && Quantity(x) == Quantity(plan.alloc) {
      if o.side.Buy? {
        CheapestPurchase(plan.levels, o.quantity, x);
      } else {
        DearestSale(plan.levels, o.quantity, x);
      }
    }
  }

  /** A market buy gets at least as much as any purchase from the same book that stays within its quantity and its
      budget. */
  lemma MarketBuyIsLargest(s: State, id: OrderId, x: seq<real>)
    requires Safe(s) && PricesNonNegative(s.orders)
    requires id < |s.orders| && s.orders[id].status == Open && MatchOrder(s, id).Ok?
    requires s.orders[id].kind.Market? && s.orders[id].side.Buy?
    ensures |MatchOrder(s, id).value.orders| == |s.orders|
    ensures var o, after := s.orders[id], MatchOrder(s, id).value;
            var levels := Levels(s.orders, Book(s.orders, o, |s.orders|));
            && after.orders[id].filled <= o.quantity
            && Paid(after.trades, id) - Paid(s.trades, id) <= Pay(o.quantity, o.price)
            && (Feasible(levels, x) && Quantity(x) <= o.quantity && Cost(levels, x) <= Pay(o.quantity, o.price) ==>
                  Quantity(x) <= after.orders[id].filled)
  {
    var o, plan := s.orders[id], PlanFor(s.orders, id);
    JobPaid(s, id);
    MatchOrderOrders(s, id);
    PlanIsPlanned(s, id);
    BookLevelsOrdered(s.orders, o);
    PlanAffordable(s.orders, id, plan.book);
    if Feasible(plan.levels, x) && Quantity(x) <= o.quantity && Cost(plan.levels, x) <= Pay(o.quantity, o.price) {
      LargestPurchase(plan.levels, o.quantity, Pay(o.quantity, o.price), x);
    }
  }

  lemma BookIndex(s: State, taker: Order, a: OrderId, b: OrderId) returns (i: nat, j: nat)
    requires a < |s.orders| && b < |s.orders| && CanTrade(taker, s.orders[a]) && CanTrade(taker, s.orders[b])
    requires || (taker.side == Buy && s.orders[a].price < s.orders[b].price)
             || (taker.side == Sell && s.orders[a].price > s.orders[b].price)
             || (s.orders[a].price == s.orders[b].price && a < b)
    ensures var book := Book(s.orders, taker, |s.orders|);
            i < j < |book| && book[i] == a && book[j] == b
  {
    var book := Book(s.orders, taker, |s.orders|);
    BookIsPriceTimeOrder(s.orders, taker);
    assert a in book && b in book;
    i :| 0 <= i < |book| && book[i] == a;
    j :| 0 <= j < |book| && book[j] == b;
  }

  lemma PlanPriority(orders: seq<Order>, id: OrderId, i: nat, j: nat)
    requires PricesNonNegative(orders) && id < |orders|
    requires i < j < |PlanFor(orders, id).alloc| && PlanFor(orders, id).alloc[j] > 0.0
    ensures PlanFor(orders, id).alloc[i] == Room(PlanFor(orders, id).levels[i])
  {
    var plan := PlanFor(orders, id);
    PlanAffordable(orders, id, plan.book);
    BookLevelsOrdered(orders, orders[id]);
    EarlierIsFull(plan.levels, orders[id].quantity, BudgetOf(orders[id]), i, j);
  }

  /** A resting order of which the plan takes all there is ends filled. */
  lemma TakenWhole(s: State, id: OrderId, after: seq<Order>, i: OrderId, j: nat)
    requires Safe(s) && PricesNonNegative(s.orders)
    requires id < |s.orders| && JobOutcome(s.orders, after, id)
    requires var plan := PlanFor(s.orders, id);
             j < |plan.book| && plan.book[j] == i && plan.alloc[j] == Room(plan.levels[j])
    requires i < |s.orders| && s.orders[i].status == Open
    ensures after[i].status == Filled
  {
    assert PlanFor(s.orders, id).levels[j] == LevelOf(s.orders[i]);
  }

  lemma PriorityInOutcome(s: State, id: OrderId, after: seq<Order>, a: OrderId, b: OrderId)
    requires Safe(s) && PricesNonNegative(s.orders)
    requires id < |s.orders| && s.orders[id].status == Open && JobOutcome(s.orders, after, id)
    requires a < |s.orders| && b < |s.orders|
    requires CanTrade(s.orders[id], s.orders[a]) && CanTrade(s.orders[id], s.orders[b])
    requires || (s.orders[id].side == Buy && s.orders[a].price < s.orders[b].price)
             || (s.orders[id].side == Sell && s.orders[a].price > s.orders[b].price)
             || (s.orders[a].price == s.orders[b].price && a < b)
    requires after[b] != s.orders[b]
    ensures after[a].status == Filled
  {
    var o, plan := s.orders[id], PlanFor(s.orders, id);
    PlanIsPlanned(s, id);
    var i, j := BookIndex(s, o, a, b);
    PlanPriority(s.orders, id, i, j);
    TakenWhole(s, id, after, a, i);
  }

  /** Price-time priority, for every kind of order: of two orders the taker may trade with, the dearer one (for a sale
      the cheaper one), or the younger one at the same price, trades only when the other has been filled completely. */
  lemma PriceTimePriority(s: State, id: OrderId, a: OrderId, b: OrderId)
    requires Safe(s) && PricesNonNegative(s.orders)
    requires id < |s.orders| && s.orders[id].status == Open && MatchOrder(s, id).Ok?
    requires a < |s.orders| && b < |s.orders|
    requires CanTrade(s.orders[id], s.orders[a]) && CanTrade(s.orders[id], s.orders[b])
    requires || (s.orders[id].side == Buy && s.orders[a].price < s.orders[b].price)
             || (s.orders[id].side == Sell && s.orders[a].price > s.orders[b].price)
             || (s.orders[a].price == s.orders[b].price && a < b)
    ensures var after := MatchOrder(s, id).value.orders;
            && |after| == |s.orders|
            && (after[b] != s.orders[b] ==> after[a].status == Filled)
  {
    MatchOrderOrders(s, id);
    if MatchOrder(s, id).value.orders[b] != s.orders[b] {
      PriorityInOutcome(s, id, MatchOrder(s, id).value.orders, a, b);
    }
  }

  // ----- Who trades, and how much

  lemma WholeBookFilled(s: State, id: OrderId, after: seq<Order>)
    requires Safe(s) && PricesNonNegative(s.orders)
    requires id < |s.orders| && JobOutcome(s.orders, after, id)
    requires var plan := PlanFor(s.orders, id);
             forall j :: 0 <= j < |plan.book| ==> plan.alloc[j] == Room(plan.levels[j])
    ensures forall i: nat :: i < |s.orders| && CanTrade(s.orders[id], s.orders[i]) ==> after[i].status == Filled
  {
    BookIsPriceTimeOrder(s.orders, s.orders[id]);
    forall i: nat | i < |s.orders| && CanTrade(s.orders[id], s.orders[i])
      ensures after[i].status == Filled
    {
      var j :| 0 <= j < |PlanFor(s.orders, id).book| && PlanFor(s.orders, id).book[j] == i;
      TakenWhole(s, id, after, i, j);
    }
  }

  /** A job stops for three reasons only: the order is full, the budget of a market buy is spent to the last unit, or
      every order it may trade with has been filled. A market order is not left open. */
  lemma TakesAllItCan(s: State, id: OrderId)
    requires Safe(s) && PricesNonNegative(s.orders)
    requires id < |s.orders| && s.orders[id].status == Open && MatchOrder(s, id).Ok?
    ensures |MatchOrder(s, id).value.orders| == |s.orders|
    ensures var o, after := s.orders[id], MatchOrder(s, id).value;
            && (|| after.orders[id].filled == o.quantity
                || (o.kind == Market && o.side == Buy
                    && Paid(after.trades, id) - Paid(s.trades, id) == Pay(o.quantity, o.price))
                || forall i: nat :: i < |s.orders| && CanTrade(o, s.orders[i]) ==> after.orders[i].status == Filled)
            && (o.kind == Market ==>
                  after.orders[id].status == if after.orders[id].filled == o.quantity then Filled else Cancelled)
  {
    var o, plan := s.orders[id], PlanFor(s.orders, id);
    JobPaid(s, id);
    MatchOrderOrders(s, id);
    PlanAffordable(s.orders, id, plan.book);
    BookLevelsOrdered(s.orders, o);
    var m := Waterfall(plan.levels, o.quantity, BudgetOf(o), 0.0);
    if m == |plan.levels| {
      WholeBookFilled(s, id, MatchOrder(s, id).value.orders);
    }
  }

  /** A trade of a taker with an order of the table, at that order's price. */
  predicate IsMatch(t: Trade, taker: Order, id: OrderId, orders: seq<Order>, other: OrderId, quantity: real) {
    && other < |orders|
    && (t.buyOrder, t.sellOrder) == (if taker.side == Buy then (id, other) else (other, id))
    && t.buyer == (if taker.side == Buy then taker.user else orders[other].user)
    && t.seller == (if taker.side == Buy then orders[other].user else taker.user)
    && t.asset == taker.asset
    && t.price == orders[other].price
    && t.quantity == quantity > 0.0
    && t.status == Unsettled
  }

  /** A trade for what a plan takes from one entry of the book. */
  ghost predicate IsPlanned(t: Trade, taker: Order, id: OrderId, orders: seq<Order>, book: seq<OrderId>,
                            alloc: seq<real>)
    requires |alloc| == |book|
  {
    exists j :: 0 <= j < |book| && IsMatch(t, taker, id, orders, book[j], alloc[j])
  }

  lemma PlannedLater(t: Trade, taker: Order, id: OrderId, orders: seq<Order>, book: seq<OrderId>, alloc: seq<real>,
                     now: Order)
    requires |alloc| == |book| && book != []
    requires (now.side, now.user, now.asset) == (taker.side, taker.user, taker.asset)
    requires IsPlanned(t, now, id, orders, book[1..], alloc[1..])
    ensures IsPlanned(t, taker, id, orders, book, alloc)
  {
    var j :| 0 <= j < |book[1..]| && IsMatch(t, now, id, orders, book[1..][j], alloc[1..][j]);
    assert IsMatch(t, taker, id, orders, book[j + 1], alloc[j + 1]);
  }

  lemma HeadTrade(s: State, id: OrderId, orders: seq<Order>, book: seq<OrderId>, alloc: seq<real>, fills: seq<Fill>,
                  trade: Trade)
    requires PlannedBook(s.orders, id, orders, book, alloc) && book != [] && alloc[0] > 0.0
    requires fills == FillsFor(orders, book, alloc, s.orders[id].filled) && MakersWithin(fills, |s.orders|)
    requires fills != [] ==> trade == MatchedTrade(s.orders[id], id, s.orders[fills[0].maker], fills[0])
    ensures IsPlanned(trade, s.orders[id], id, orders, book, alloc)
  {
    FillsTail(orders, book, alloc, s.orders[id].filled, s.orders[id].filled + alloc[0]);
    assert s.orders[book[0]] == orders[book[0]];
    assert IsMatch(trade, s.orders[id], id, orders, book[0], alloc[0]);
  }

  /** The trades table has grown by trades that were planned. */
  ghost predicate Written(before: seq<Trade>, after: seq<Trade>, taker: Order, id: OrderId, orders: seq<Order>,
                          book: seq<OrderId>, alloc: seq<real>)
    requires |alloc| == |book|
  {
    && before <= after
    && forall n :: |before| <= n < |after| ==> IsPlanned(after[n], taker, id, orders, book, alloc)
  }

  lemma WrittenLater(before: seq<Trade>, after: seq<Trade>, taker: Order, id: OrderId, orders: seq<Order>,
                     book: seq<OrderId>, alloc: seq<real>, now: Order)
    requires |alloc| == |book| && book != []
    requires (now.side, now.user, now.asset) == (taker.side, taker.user, taker.asset)
    requires Written(before, after, now, id, orders, book[1..], alloc[1..])
    ensures Written(before, after, taker, id, orders, book, alloc)
  {
    forall n | |before| <= n < |after|
      ensures IsPlanned(after[n], taker, id, orders, book, alloc)
    {
      PlannedLater(after[n], taker, id, orders, book, alloc, now);
    }
  }

  lemma WrittenFirst(before: seq<Trade>, trade: Trade, after: seq<Trade>, taker: Order, id: OrderId, orders: seq<Order>,
                     book: seq<OrderId>, alloc: seq<real>)
    requires |alloc| == |book| && IsPlanned(trade, taker, id, orders, book, alloc)
    requires Written(before + [trade], after, taker, id, orders, book, alloc)
    ensures Written(before, after, taker, id, orders, book, alloc)
  {
    assert after[|before|] == (before + [trade])[|before|];
    assert before <= before + [trade];
  }

  lemma {:induction false} ApplyFillsPlanned(
    s: State, id: OrderId, orders: seq<Order>, book: seq<OrderId>, alloc: seq<real>, fills: seq<Fill>, after: State)
    requires PlannedBook(s.orders, id, orders, book, alloc)
    requires fills == FillsFor(orders, book, alloc, s.orders[id].filled) && MakersWithin(fills, |s.orders|)
    requires ApplyFills(s, id, fills) == Ok(after)
    ensures Written(s.trades, after.trades, s.orders[id], id, orders, book, alloc)
    decreases |book|
  {
    if book != [] {
      BookTail(s.orders, id, orders, book, alloc);
      var now := s.orders[id];
      if alloc[0] <= 0.0 {
        ApplyFillsPlanned(s, id, orders, book[1..], alloc[1..], fills, after);
        WrittenLater(s.trades, after.trades, now, id, orders, book, alloc, now);
      } else {
        var mid := HeadWritten(s, id, orders, book, alloc, fills);
        HeadTrade(s, id, orders, book, alloc, fills, mid.trades[|s.trades|]);
        ApplyFillsPlanned(mid, id, orders, book[1..], alloc[1..], fills[1..], after);
        WrittenLater(mid.trades, after.trades, now, id, orders, book, alloc, mid.orders[id]);
        WrittenFirst(s.trades, mid.trades[|s.trades|], after.trades, now, id, orders, book, alloc);
      }
    }
  }

  lemma JobWritesPlanned(s: State, id: OrderId)
    requires Safe(s) && PricesNonNegative(s.orders)
    requires id < |s.orders| && s.orders[id].status == Open && MatchOrder(s, id).Ok?
    ensures var plan := PlanFor(s.orders, id);
            Written(s.trades, MatchOrder(s, id).value.trades, s.orders[id], id, s.orders, plan.book, plan.alloc)
  {
    var mid := MatchesWritten(s, id);
    var plan := PlanFor(s.orders, id);
    PlanIsPlanned(s, id);
    ApplyFillsPlanned(s, id, s.orders, plan.book, plan.alloc, Fills(s.orders, id), mid);
  }

  /** A trade with an order the taker may trade with, at that order's price and for all it has been filled by. */
  ghost predicate IsTradeOf(t: Trade, orders: seq<Order>, id: OrderId, after: seq<Order>)
    requires id < |orders| == |after|
  {
    exists i: nat :: i < |orders| && CanTrade(orders[id], orders[i])
                  && IsMatch(t, orders[id], id, orders, i, after[i].filled)
  }

  lemma PlannedIsFilled(s: State, id: OrderId, after: seq<Order>, t: Trade)
    requires Safe(s) && PricesNonNegative(s.orders)
    requires id < |s.orders| && JobOutcome(s.orders, after, id)
    requires IsPlanned(t, s.orders[id], id, s.orders, PlanFor(s.orders, id).book, PlanFor(s.orders, id).alloc)
    ensures IsTradeOf(t, s.orders, id, after)
  {
    var plan := PlanFor(s.orders, id);
    BookIsPriceTimeOrder(s.orders, s.orders[id]);
    var j :| 0 <= j < |plan.book| && IsMatch(t, s.orders[id], id, s.orders, plan.book[j], plan.alloc[j]);
    assert plan.book[j] in plan.book;
    assert after[plan.book[j]] == Progress(s.orders[plan.book[j]], plan.alloc[j]);
    assert IsMatch(t, s.orders[id], id, s.orders, plan.book[j], after[plan.book[j]].filled);
  }

  lemma OthersStay(s: State, id: OrderId, after: seq<Order>)
    requires Safe(s) && PricesNonNegative(s.orders)
    requires id < |s.orders| && JobOutcome(s.orders, after, id)
    ensures forall i: nat :: i < |after| && i != id && after[i] != s.orders[i] ==> CanTrade(s.orders[id], s.orders[i])
  {
    BookIsPriceTimeOrder(s.orders, s.orders[id]);
  }

  /** A job writes one trade for each order it takes from, and nobody else's order changes: every new trade is with an
      order the taker may trade with, at that order's price and for all that order has been filled by. */
  lemma TradesAreWithCounterparties(s: State, id: OrderId)
    requires Safe(s) && PricesNonNegative(s.orders)
    requires id < |s.orders| && s.orders[id].status == Open && MatchOrder(s, id).Ok?
    ensures |MatchOrder(s, id).value.orders| == |s.orders|
    ensures var o, after := s.orders[id], MatchOrder(s, id).value;
            && s.trades <= after.trades
            && (forall i: nat :: i < |s.orders| && i != id && after.orders[i] != s.orders[i] ==>
                  CanTrade(o, s.orders[i]))
            && (forall n :: |s.trades| <= n < |after.trades| ==> IsTradeOf(after.trades[n], s.orders, id, after.orders))
  {
    var after := MatchOrder(s, id).value;
    MatchOrderOrders(s, id);
    OthersStay(s, id, after.orders);
    JobWritesPlanned(s, id);
    forall n | |s.trades| <= n < |after.trades| {
      PlannedIsFilled(s, id, after.orders, after.trades[n]);
    }
  }
}
