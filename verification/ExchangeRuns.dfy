/** Safety over whole runs of the exchange, and what limit-only trading adds to it. */
module ExchangeRuns {
  import opened Common
  import opened Sums
  import opened Balances
  import opened Allocation
  import opened Exchange
  import opened ExchangeSafety
  import opened OrderBook
  import opened ExchangeSteps
  import opened SettlementSafety

  // ----- Every run

  /** An exchange that has just opened: money in the available pockets, and nothing else. */
  ghost predicate Initial(s: State) {
    && (forall k :: k in s.rows ==> s.rows[k].available >= 0.0 && s.rows[k].locked == 0.0)
    && s.orders == [] && s.queue == [] && s.trades == [] && s.released == []
  }

  lemma AnyJobSafe(s: State, id: OrderId)
    requires Safe(s) && PricesNonNegative(s.orders) && MatchOrder(s, id).Ok?
    ensures StillSafe(s, MatchOrder(s, id).value)
  {
    if id < |s.orders| && s.orders[id].status == Open {
      MatchOrderSafe(s, id);
    }
  }

  lemma RequeuedSafe(s: State, queue: seq<OrderId>)
    requires Safe(s) && Within(queue, |s.orders|)
    ensures Safe(s.(queue := queue))
  {
  }

  lemma RunJobSafe(s: State, at: nat, lastAttempt: bool)
    requires Safe(s) && PricesNonNegative(s.orders)
    ensures Safe(RunJob(s, at, lastAttempt)) && SameTotals(s.rows, RunJob(s, at, lastAttempt).rows)
  {
    if at < |s.queue| {
      var queue := s.queue[..at] + s.queue[at + 1..];
      var job := MatchOrder(s, s.queue[at]);
      if job.Ok? {
        AnyJobSafe(s, s.queue[at]);
        RequeuedSafe(job.value, queue);
      } else {
        RequeuedSafe(s, queue);
      }
    }
  }

  lemma NextSafe(s: State, step: Step)
    requires Safe(s) && PricesNonNegative(s.orders)
    ensures Safe(Next(s, step)) && SameTotals(s.rows, Next(s, step).rows)
  {
    match step
    case Create(user, req, listing) =>
      if CreateOrder(s, user, req, listing).Ok? {
        CreateSafe(s, user, req, listing);
      }
    case Run(at, lastAttempt) => RunJobSafe(s, at, lastAttempt);
    case Cancel(user, id) => CancelSafe(s, user, id);
    case Settle(tick) => SettleTickSafe(s, tick);
  }

  /** The tables after a run of steps. */
  ghost function Play(s: State, steps: seq<Step>): State
    requires Safe(s)
    decreases |steps|
  {
    if steps == [] then s
    else
      SafePrices(s);
      NextSafe(s, steps[0]);
      Play(Next(s, steps[0]), steps[1..])
  }

  lemma {:induction false} PlaySafe(s: State, steps: seq<Step>)
    requires Safe(s)
    ensures Safe(Play(s, steps)) && SameTotals(s.rows, Play(s, steps).rows)
    decreases |steps|
  {
    if steps != [] {
      SafePrices(s);
      NextSafe(s, steps[0]);
      PlaySafe(Next(s, steps[0]), steps[1..]);
    }
  }

  lemma InitialSafe(s: State)
    requires Initial(s)
    ensures Safe(s)
  {
  }

  /** Lock coverage and conservation, in every reachable state: an account's locked pocket is what live orders and
      unsettled trades claim of it, no pocket is negative, and the supply of cash and of every asset is constant. */
  lemma LocksCoveredAndMoneyConserved(s: State, steps: seq<Step>)
    requires Initial(s)
    ensures Safe(s)
    ensures var now := Play(s, steps);
            && (forall k :: Locked(now.rows, k) == Sum(now.orders, OrderLock(k)) + Sum(now.trades, TradeLock(k)))
            && NonNegative(now.rows)
            && (forall a :: Total(now.rows, a) == Total(s.rows, a))
  {
    InitialSafe(s);
    PlaySafe(s, steps);
  }

  /** Fill accounting, in every reachable state: filled quantities are sums of trades, statuses tell them apart, and
      a trade's two unlocks have happened once if it is settled and never otherwise. */
  lemma FillsAndSettlementsAddUp(s: State, steps: seq<Step>)
    requires Initial(s)
    ensures Safe(s)
    ensures var now := Play(s, steps);
            && (forall i :: 0 <= i < |now.orders| ==>
                  && 0.0 <= now.orders[i].filled == Sum(now.trades, TradedBy(i)) <= now.orders[i].quantity
                  && (now.orders[i].status == Open ==> now.orders[i].filled == 0.0)
                  && (now.orders[i].status == Filled <==> now.orders[i].filled == now.orders[i].quantity))
            && (forall t :: 0 <= t < |now.trades| ==>
                  ReleasesOf(now.released, t) == if now.trades[t].status == Settled then Owed(t, now.trades[t]) else [])
  {
    InitialSafe(s);
    PlaySafe(s, steps);
  }

  // ----- What a job does to the orders

  /** How a job that goes through leaves the orders. */
  ghost predicate JobOutcome(before: seq<Order>, after: seq<Order>, id: OrderId)
    requires id < |before| && PricesNonNegative(before)
  {
    var plan := PlanFor(before, id);
    && |after| == |before|
    && after[id] == JobDone(before[id], Quantity(plan.alloc))
    && (forall j :: 0 <= j < |plan.book| ==>
          plan.book[j] != id && after[plan.book[j]] == Progress(before[plan.book[j]], plan.alloc[j]))
    && (forall i: nat :: i < |after| && i != id && i !in plan.book ==> after[i] == before[i])
  }

  lemma ClosedOutcome(before: seq<Order>, mid: seq<Order>, id: OrderId, filled: real)
    requires PricesNonNegative(before) && id < |before| && filled == Quantity(PlanFor(before, id).alloc)
    requires forall j :: 0 <= j < |PlanFor(before, id).book| ==> PlanFor(before, id).book[j] != id
    requires Progressed(before, mid, id, PlanFor(before, id).book, PlanFor(before, id).alloc)
    ensures id < |mid| && JobOutcome(before, mid[id := JobDone(before[id], filled)], id)
  {
  }

  lemma MatchOrderOrders(s: State, id: OrderId)
    requires Safe(s) && PricesNonNegative(s.orders)
    requires id < |s.orders| && s.orders[id].status == Open
    requires MatchOrder(s, id).Ok?
    ensures JobOutcome(s.orders, MatchOrder(s, id).value.orders, id)
  {
    var o, plan := s.orders[id], PlanFor(s.orders, id);
    MatchOrderSafe(s, id);
    MatchesSafe(s, id);
    PlanIsPlanned(s, id);
    QuantityNonNegative(plan.alloc);
    var mid := ApplyFills(s, id, Fills(s.orders, id));
    MatchOrderUnfolds(s, id, mid);
    ClosedOutcome(s.orders, mid.value.orders, id, Quantity(plan.alloc));
    CloseAfterFills(mid.value, id, o, Quantity(plan.alloc), Unfilled(s.orders, id), Spent(s.orders, id));
  }

  lemma {:induction false} NothingTaken(orders: seq<Order>, book: seq<OrderId>, alloc: seq<real>, takerFilled: real)
    requires |alloc| == |book| && Within(book, |orders|)
    requires Quantity(alloc) == 0.0 && forall j :: 0 <= j < |alloc| ==> alloc[j] >= 0.0
    ensures FillsFor(orders, book, alloc, takerFilled) == []
  {
    if book != [] {
      QuantityNonNegative(alloc[1..]);
      NothingTaken(orders, book[1..], alloc[1..], takerFilled);
    }
  }

  /** Running an order's job again right away changes nothing, so a retry after a lost acknowledgement is harmless. */
  lemma MatchOrderIdempotent(s: State, id: OrderId)
    requires Safe(s) && PricesNonNegative(s.orders) && MatchOrder(s, id).Ok?
    ensures PricesNonNegative(MatchOrder(s, id).value.orders)
    ensures MatchOrder(MatchOrder(s, id).value, id) == MatchOrder(s, id)
  {
    if id < |s.orders| && s.orders[id].status == Open {
      MatchOrderSafe(s, id);
      MatchOrderOrders(s, id);
      var plan := PlanFor(s.orders, id);
      PlanIsPlanned(s, id);
      if JobDone(s.orders[id], Quantity(plan.alloc)).status == Open {
        NothingTaken(s.orders, plan.book, plan.alloc, s.orders[id].filled);
        MatchOrderUnfolds(s, id, ApplyFills(s, id, Fills(s.orders, id)));
        assert MatchOrder(s, id) == Ok(s);
      }
    }
  }

  // ----- Limit-only trading

  ghost predicate LimitOnly(s: State) {
    forall i :: 0 <= i < |s.orders| ==> s.orders[i].kind.Limit? && s.orders[i].price > 0.0
  }

  predicate LimitStep(step: Step) {
    step.Create? ==> step.req.kind.Limit? && step.req.price > 0.0
  }

  ghost predicate Crossed(s: State, i: OrderId, j: OrderId)
    requires i < |s.orders| && j < |s.orders|
  {
    var buy, sale := s.orders[i], s.orders[j];
    && buy.status == Open && sale.status == Open
    && buy.side.Buy? && sale.side.Sell?
    && buy.asset == sale.asset
    && buy.user != sale.user
    && buy.price >= sale.price
  }

  /** Orders of different owners that would trade with each other include one that a job will still look at. */
  ghost predicate CrossedAreQueued(s: State) {
    forall i: nat, j: nat :: i < |s.orders| && j < |s.orders| && Crossed(s, i, j) ==> i in s.queue || j in s.queue
  }

  /** With limit orders only, every job goes through. */
  lemma LimitJobsCommit(s: State, id: OrderId)
    requires Safe(s) && LimitOnly(s)
    ensures PricesNonNegative(s.orders) && MatchOrder(s, id).Ok?
  {
    if id < |s.orders| && s.orders[id].status == Open {
      MatchOrderSafe(s, id);
      PricedWhenHeadIsPriced(s, id);
    }
  }

  lemma {:induction false} DepthAtLeast(levels: seq<Level>, j: nat)
    requires j < |levels|
    ensures Depth(levels) >= Room(levels[j])
  {
    if j > 0 {
      DepthAtLeast(levels[1..], j - 1);
    } else {
      DepthNonNegative(levels[1..]);
    }
  }

  lemma {:induction false} DepthNonNegative(levels: seq<Level>)
    ensures Depth(levels) >= 0.0
  {
    if levels != [] {
      DepthNonNegative(levels[1..]);
    }
  }

  /** A limit order that its job leaves open had nobody to trade with. */
  lemma LeftOpenHadNoMatch(s: State, id: OrderId, after: seq<Order>)
    requires Safe(s) && LimitOnly(s) && PricesNonNegative(s.orders)
    requires id < |s.orders| && s.orders[id].status == Open
    requires JobOutcome(s.orders, after, id) && after[id].status == Open
    ensures Book(s.orders, s.orders[id], |s.orders|) == []
  {
    var o, plan := s.orders[id], PlanFor(s.orders, id);
    PlanIsPlanned(s, id);
    FillsAllItCan(plan.levels, o.quantity);
    if plan.book != [] {
      BookMember(s.orders, o, 0);
      DepthAtLeast(plan.levels, 0);
    }
  }

  /** Orders that are open after a job were open, and the same, before it. */
  lemma OpenWasOpen(before: seq<Order>, after: seq<Order>, id: OrderId, i: nat)
    requires PricesNonNegative(before) && id < |before| && JobOutcome(before, after, id)
    requires before[id].filled == 0.0
    requires forall j :: 0 <= j < |PlanFor(before, id).alloc| ==> PlanFor(before, id).alloc[j] >= 0.0
    requires before[id].status == Open
    requires i < |before| && after[i].status == Open
    ensures after[i] == before[i]
  {
    var plan := PlanFor(before, id);
    QuantityNonNegative(plan.alloc);
    if i in plan.book {
      var j :| 0 <= j < |plan.book| && plan.book[j] == i;
      assert after[i] == Progress(before[i], plan.alloc[j]);
    }
  }

  lemma MatchedStaysUncrossed(s: State, id: OrderId, after: State, i: nat, j: nat)
    requires Safe(s) && LimitOnly(s) && CrossedAreQueued(s) && PricesNonNegative(s.orders)
    requires id < |s.orders| && s.orders[id].status == Open && JobOutcome(s.orders, after.orders, id)
    requires i < |s.orders| && j < |s.orders| && Crossed(after, i, j)
    ensures (i != id && i in s.queue) || (j != id && j in s.queue)
  {
    PlanIsPlanned(s, id);
    OpenWasOpen(s.orders, after.orders, id, i);
    OpenWasOpen(s.orders, after.orders, id, j);
    assert Crossed(s, i, j);
    if i == id || j == id {
      CrossedInBook(s.orders, id, if i == id then j else i);
      LeftOpenHadNoMatch(s, id, after.orders);
    }
  }

  lemma CrossedInBook(orders: seq<Order>, id: OrderId, other: OrderId)
    requires id < |orders| && other < |orders| && Eligible(orders[id], orders[other])
    ensures Book(orders, orders[id], |orders|) != []
  {
    assert other in Book(orders, orders[id], |orders|);
  }

  lemma TakenOut(queue: seq<OrderId>, at: nat, i: OrderId)
    requires at < |queue| && i in queue && i != queue[at]
    ensures i in queue[..at] + queue[at + 1..]
  {
    assert queue == queue[..at] + [queue[at]] + queue[at + 1..];
  }

  /** Of two orders that cross once a queued job is done, one is still queued. */
  lemma JobLeavesQueued(s: State, at: nat, after: State, i: nat, j: nat)
    requires Safe(s) && LimitOnly(s) && CrossedAreQueued(s) && PricesNonNegative(s.orders)
    requires at < |s.queue| && |after.orders| == |s.orders|
    requires if s.orders[s.queue[at]].status == Open then JobOutcome(s.orders, after.orders, s.queue[at])
             else after.orders == s.orders
    requires i < |s.orders| && j < |s.orders| && Crossed(after, i, j)
    ensures i in s.queue[..at] + s.queue[at + 1..] || j in s.queue[..at] + s.queue[at + 1..]
  {
    var id := s.queue[at];
    if s.orders[id].status == Open {
      MatchedStaysUncrossed(s, id, after, i, j);
    } else {
      assert Crossed(s, i, j);
    }
    if i != id && i in s.queue {
      TakenOut(s.queue, at, i);
    } else {
      TakenOut(s.queue, at, j);
    }
  }

  /** What a worker's step leaves when jobs go through. */
  lemma JobStep(s: State, at: nat, lastAttempt: bool)
    requires Safe(s) && LimitOnly(s) && PricesNonNegative(s.orders) && at < |s.queue|
    ensures var after := RunJob(s, at, lastAttempt);
            && LimitOnly(after)
            && after.queue == s.queue[..at] + s.queue[at + 1..]
            && |after.orders| == |s.orders|
            && (if s.orders[s.queue[at]].status == Open then JobOutcome(s.orders, after.orders, s.queue[at])
                else after.orders == s.orders)
  {
    var id := s.queue[at];
    LimitJobsCommit(s, id);
    if s.orders[id].status == Open {
      MatchOrderOrders(s, id);
      LimitOrdersStay(s, id);
    }
  }

  lemma RunJobUncrossed(s: State, at: nat, lastAttempt: bool)
    requires Safe(s) && LimitOnly(s) && CrossedAreQueued(s) && PricesNonNegative(s.orders)
    ensures LimitOnly(RunJob(s, at, lastAttempt)) && CrossedAreQueued(RunJob(s, at, lastAttempt))
  {
    if at < |s.queue| {
      var after := RunJob(s, at, lastAttempt);
      JobStep(s, at, lastAttempt);
      forall i: nat, j: nat | i < |after.orders| && j < |after.orders| && Crossed(after, i, j)
        ensures i in after.queue || j in after.queue
      {
        JobLeavesQueued(s, at, after, i, j);
      }
    }
  }

  lemma LimitOrdersStay(s: State, id: OrderId)
    requires Safe(s) && LimitOnly(s) && PricesNonNegative(s.orders)
    requires id < |s.orders| && s.orders[id].status == Open && MatchOrder(s, id).Ok?
    ensures LimitOnly(MatchOrder(s, id).value)
  {
    MatchOrderOrders(s, id);
    var plan := PlanFor(s.orders, id);
    forall i: nat | i < |s.orders|
      ensures var o := MatchOrder(s, id).value.orders[i]; o.kind.Limit? && o.price > 0.0
    {
      if i in plan.book {
        var j :| 0 <= j < |plan.book| && plan.book[j] == i;
      }
    }
  }

  lemma NextUncrossed(s: State, step: Step)
    requires Safe(s) && LimitOnly(s) && CrossedAreQueued(s) && LimitStep(step) && PricesNonNegative(s.orders)
    ensures LimitOnly(Next(s, step)) && CrossedAreQueued(Next(s, step))
  {
    match step
    case Create(user, req, listing) =>
      if CreateOrder(s, user, req, listing).Ok? && CreateOrder(s, user, req, listing).value != s {
        CreateSafe(s, user, req, listing);
        PlacedUncrossed(s, CreateOrder(s, user, req, listing).value, user, req);
      }
    case Run(at, lastAttempt) => RunJobUncrossed(s, at, lastAttempt);
    case Cancel(user, id) =>
      CancelSafe(s, user, id);
      FewerOpenUncrossed(s, Next(s, step));
    case Settle(tick) =>
      SettleTickSafe(s, tick);
      FewerOpenUncrossed(s, Next(s, step));
  }

  lemma FewerOpenUncrossed(s: State, after: State)
    requires LimitOnly(s) && CrossedAreQueued(s)
    requires after.queue == s.queue && |after.orders| == |s.orders|
    requires forall i :: 0 <= i < |s.orders| ==>
                           after.orders[i] == s.orders[i] || after.orders[i] == s.orders[i].(status := Cancelled)
    ensures LimitOnly(after) && CrossedAreQueued(after)
  {
    forall i: nat, j: nat | i < |after.orders| && j < |after.orders| && Crossed(after, i, j)
      ensures i in after.queue || j in after.queue
    {
      assert Crossed(s, i, j);
    }
  }

  lemma PlacedUncrossed(s: State, after: State, user: UserId, req: Request)
    requires LimitOnly(s) && CrossedAreQueued(s) && Placed(s, after, user, req) && req.kind.Limit? && req.price > 0.0
    ensures LimitOnly(after) && CrossedAreQueued(after)
  {
    assert forall i :: 0 <= i < |s.orders| ==> after.orders[i] == after.orders[..|s.orders|][i];
    forall i: nat, j: nat | i < |after.orders| && j < |after.orders| && Crossed(after, i, j)
      ensures i in after.queue || j in after.queue
    {
      assert |s.orders| in after.queue;
      if i < |s.orders| && j < |s.orders| {
        assert Crossed(s, i, j);
      }
    }
  }

  lemma {:induction false} UncrossedOnward(s: State, steps: seq<Step>)
    requires Safe(s) && LimitOnly(s) && CrossedAreQueued(s)
    requires forall n :: 0 <= n < |steps| ==> LimitStep(steps[n])
    ensures LimitOnly(Play(s, steps)) && CrossedAreQueued(Play(s, steps))
    decreases |steps|
  {
    if steps != [] {
      SafePrices(s);
      NextSafe(s, steps[0]);
      NextUncrossed(s, steps[0]);
      UncrossedOnward(Next(s, steps[0]), steps[1..]);
    }
  }

  lemma InitialUncrossed(s: State)
    requires Initial(s)
    ensures Safe(s) && LimitOnly(s) && CrossedAreQueued(s)
  {
  }

  /** With limit orders only, in every reachable state two orders that cross include one whose job is still queued, so
      the book is uncrossed when the queue is empty; and no job there is ever aborted by a ledger guard. */
  lemma LimitTradingUncrossed(s: State, steps: seq<Step>)
    requires Initial(s) && forall n :: 0 <= n < |steps| ==> LimitStep(steps[n])
    ensures Safe(s)
    ensures var now := Play(s, steps);
            && LimitOnly(now)
            && CrossedAreQueued(now)
            && PricesNonNegative(now.orders)
            && (forall id: nat :: MatchOrder(now, id).Ok?)
            && (now.queue == [] ==>
                  forall i: nat, j: nat :: i < |now.orders| && j < |now.orders| ==> !Crossed(now, i, j))
  {
    InitialUncrossed(s);
    UncrossedOnward(s, steps);
    PlaySafe(s, steps);
    forall id: nat {
      LimitJobsCommit(Play(s, steps), id);
    }
  }
}

/** Orders that have left the open state: what still happens to them, and which of them may cross. */
module RestingOrders {
  import opened Exchange
  import opened ExchangeSafety
  import opened ExchangeSteps
  import opened SettlementSafety
  import opened ExchangeRuns

  /** A partly filled order can only be cancelled; a filled or a cancelled one stays as it is. */
  predicate Rests(before: Order, after: Order) {
    after == before || (before.status == PartiallyFilled && after == before.(status := Cancelled))
  }

  lemma JobLeavesResting(s: State, id: OrderId, i: OrderId)
    requires Safe(s) && PricesNonNegative(s.orders) && MatchOrder(s, id).Ok?
    requires i < |s.orders| && s.orders[i].status != Open
    ensures i < |MatchOrder(s, id).value.orders| && MatchOrder(s, id).value.orders[i] == s.orders[i]
  {
    if id < |s.orders| && s.orders[id].status == Open {
      MatchOrderOrders(s, id);
      assert i !in Book(s.orders, s.orders[id], |s.orders|);
    }
  }

  lemma StepLeavesResting(s: State, step: Step, i: OrderId)
    requires Safe(s) && PricesNonNegative(s.orders)
    requires i < |s.orders| && s.orders[i].status != Open
    ensures i < |Next(s, step).orders| && Rests(s.orders[i], Next(s, step).orders[i])
  {
    match step
    case Create(user, req, listing) =>
      if CreateOrder(s, user, req, listing).Ok? {
        var after := CreateOrder(s, user, req, listing).value;
        CreateSafe(s, user, req, listing);
        assert after == s || after.orders[..|s.orders|][i] == s.orders[i];
      }
    case Run(at, _) =>
      if at < |s.queue| && MatchOrder(s, s.queue[at]).Ok? {
        JobLeavesResting(s, s.queue[at], i);
      }
    case Cancel(user, id) => CancelSafe(s, user, id);
    case Settle(tick) => SettleTickSafe(s, tick);
  }

  /** Over every run: once an order is partly filled no job ever touches it again, as taker or as maker; it stays as it
      is until its owner cancels it. Filled and cancelled orders never change. */
  lemma {:induction false} RestingOrdersRest(s: State, steps: seq<Step>, i: OrderId)
    requires Safe(s) && i < |s.orders| && s.orders[i].status != Open
    ensures i < |Play(s, steps).orders| && Rests(s.orders[i], Play(s, steps).orders[i])
    decreases |steps|
  {
    if steps != [] {
      SafePrices(s);
      NextSafe(s, steps[0]);
      StepLeavesResting(s, steps[0], i);
      RestingOrdersRest(Next(s, steps[0]), steps[1..], i);
    }
  }

  /** A buy and a sale that are both live would trade with each other, had the query selected them. */
  predicate LiveCrossing(buy: Order, sale: Order) {
    && Live(buy) && Live(sale)
    && buy.side.Buy? && sale.side.Sell?
    && buy.asset == sale.asset
    && buy.user != sale.user
    && buy.price >= sale.price
  }

  /** With limit orders only and the queue empty, two live orders of different owners cross only if one of them is
      partly filled. */
  lemma LiveCrossingIncludesPartial(s: State, steps: seq<Step>, i: OrderId, j: OrderId)
    requires Initial(s) && forall n :: 0 <= n < |steps| ==> LimitStep(steps[n])
    requires Safe(s) && Play(s, steps).queue == []
    requires i < |Play(s, steps).orders| && j < |Play(s, steps).orders|
    requires LiveCrossing(Play(s, steps).orders[i], Play(s, steps).orders[j])
    ensures Play(s, steps).orders[i].status == PartiallyFilled || Play(s, steps).orders[j].status == PartiallyFilled
  {
    LimitTradingUncrossed(s, steps);
    PlaySafe(s, steps);
    assert !Crossed(Play(s, steps), i, j);
  }
}
