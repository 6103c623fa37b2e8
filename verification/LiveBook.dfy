/** When matching leaves orders that would trade with each other, and nobody to match them. */
module LiveBook {
  import opened Common
  import opened Balances
  import opened Allocation
  import opened Exchange
  import opened ExchangeSafety
  import opened OrderBook
  import opened ExchangeSteps
  import opened SettlementSafety
  import opened ExchangeRuns
  import opened RestingOrders

  /** Two limit orders of different owners whose prices allow a trade. */
  predicate Meets(o: Order, m: Order) {
    && m.asset == o.asset
    && m.side != o.side
    && m.user != o.user
    && if o.side.Buy? then m.price <= o.price else m.price >= o.price
  }

  predicate LiveMeets(o: Order, m: Order) {
    Live(o) && Live(m) && Meets(o, m)
  }

  function LevelsOf(orders: seq<Order>, id: OrderId): seq<Level>
    requires id < |orders|
  {
    Levels(orders, Book(orders, orders[id], |orders|))
  }

  /** The job of an order fills less than the order, and a partly filled order that the query passes over would have
      traded with it. */
  ghost predicate TakerStranded(orders: seq<Order>, id: OrderId)
    requires id < |orders|
  {
    && Depth(LevelsOf(orders, id)) < orders[id].quantity
    && exists j: nat :: j < |orders| && orders[j].status == PartiallyFilled && Meets(orders[id], orders[j])
  }

  /** An allocation of the whole depth takes every level whole. */
  lemma {:induction false} WholeDepth(levels: seq<Level>, a: seq<real>)
    requires Feasible(levels, a) && Quantity(a) == Depth(levels)
    ensures forall k :: 0 <= k < |a| ==> a[k] == Room(levels[k])
  {
    if a != [] {
      WithinDepth(levels[1..], a[1..]);
      WholeDepth(levels[1..], a[1..]);
      forall k | 0 <= k < |a|
        ensures a[k] == Room(levels[k])
      {
        assert k > 0 ==> a[1..][k - 1] == Room(levels[1..][k - 1]);
      }
    }
  }

  lemma {:induction false} WithinDepth(levels: seq<Level>, a: seq<real>)
    requires Feasible(levels, a)
    ensures Quantity(a) <= Depth(levels)
  {
    if a != [] {
      WithinDepth(levels[1..], a[1..]);
    }
  }

  /** A job's plan for a limit order: its own fill, and what it takes of the book. */
  lemma LimitPlan(s: State, id: OrderId)
    requires Safe(s) && LimitOnly(s) && PricesNonNegative(s.orders)
    requires id < |s.orders| && s.orders[id].status == Open
    ensures var o, plan := s.orders[id], PlanFor(s.orders, id);
            && plan.levels == LevelsOf(s.orders, id)
            && Feasible(plan.levels, plan.alloc)
            && Quantity(plan.alloc) == Min(o.quantity, Depth(plan.levels))
            && (Depth(plan.levels) < o.quantity ==>
                  forall k :: 0 <= k < |plan.alloc| ==> plan.alloc[k] == Room(plan.levels[k]))
  {
    var o, plan := s.orders[id], PlanFor(s.orders, id);
    PlanIsPlanned(s, id);
    FillsAllItCan(plan.levels, o.quantity);
    if Depth(plan.levels) < o.quantity {
      WholeDepth(plan.levels, plan.alloc);
    }
  }

  /** A resting order once a job has come by. */
  lemma OutcomeOfOther(s: State, id: OrderId, after: seq<Order>, j: OrderId)
    requires Safe(s) && LimitOnly(s) && PricesNonNegative(s.orders)
    requires id < |s.orders| && s.orders[id].status == Open && JobOutcome(s.orders, after, id)
    requires j < |s.orders| && j != id
    ensures after[j] == s.orders[j].(filled := after[j].filled, status := after[j].status)
    ensures !(s.orders[j].status == Open && Meets(s.orders[id], s.orders[j])) ==> after[j] == s.orders[j]
    ensures s.orders[j].status == Open && Meets(s.orders[id], s.orders[j]) ==>
              Depth(LevelsOf(s.orders, id)) < s.orders[id].quantity ==> after[j].status == Filled
  {
    var plan := PlanFor(s.orders, id);
    LimitPlan(s, id);
    if j in plan.book {
      var k :| 0 <= k < |plan.book| && plan.book[k] == j;
      assert plan.levels[k] == LevelOf(s.orders[j]);
      assert after[plan.book[k]] == Progress(s.orders[j], plan.alloc[k]);
    }
  }

  /** The order itself once its job is done. */
  lemma OutcomeOfTaker(s: State, id: OrderId, after: seq<Order>)
    requires Safe(s) && LimitOnly(s) && PricesNonNegative(s.orders)
    requires id < |s.orders| && s.orders[id].status == Open && JobOutcome(s.orders, after, id)
    ensures after[id] == s.orders[id].(filled := after[id].filled, status := after[id].status)
    ensures Live(after[id]) <==> Depth(LevelsOf(s.orders, id)) < s.orders[id].quantity
  {
    LimitPlan(s, id);
  }

  /** Exactly when a job leaves its order live and crossed: another live order would still trade with it if and only if
      the eligible book was shallower than the order and a partly filled order crosses it. */
  lemma TakerLeftCrossedIff(s: State, id: OrderId)
    requires Safe(s) && LimitOnly(s) && id < |s.orders| && s.orders[id].status == Open
    ensures PricesNonNegative(s.orders) && MatchOrder(s, id).Ok? && |MatchOrder(s, id).value.orders| == |s.orders|
    ensures var after := MatchOrder(s, id).value.orders;
            (exists j: nat :: j < |after| && LiveMeets(after[id], after[j])) <==> TakerStranded(s.orders, id)
  {
    LimitJobsCommit(s, id);
    MatchOrderOrders(s, id);
    TakerInOutcome(s, id, MatchOrder(s, id).value.orders);
  }

  lemma TakerInOutcome(s: State, id: OrderId, after: seq<Order>)
    requires Safe(s) && LimitOnly(s) && PricesNonNegative(s.orders)
    requires id < |s.orders| && s.orders[id].status == Open && JobOutcome(s.orders, after, id)
    ensures (exists j: nat :: j < |after| && LiveMeets(after[id], after[j])) <==> TakerStranded(s.orders, id)
  {
    if j: nat :| j < |after| && LiveMeets(after[id], after[j]) {
      CrossedTaker(s, id, after, j);
    }
    if TakerStranded(s.orders, id) {
      var j := StrandedTaker(s, id, after);
    }
  }

  lemma CrossedTaker(s: State, id: OrderId, after: seq<Order>, j: nat)
    requires Safe(s) && LimitOnly(s) && PricesNonNegative(s.orders)
    requires id < |s.orders| && s.orders[id].status == Open && JobOutcome(s.orders, after, id)
    requires j < |after| && LiveMeets(after[id], after[j])
    ensures TakerStranded(s.orders, id)
  {
    OutcomeOfTaker(s, id, after);
    OutcomeOfOther(s, id, after, j);
    assert OrderOk(s.orders[j]);
  }

  lemma StrandedTaker(s: State, id: OrderId, after: seq<Order>) returns (j: nat)
    requires Safe(s) && LimitOnly(s) && PricesNonNegative(s.orders)
    requires id < |s.orders| && s.orders[id].status == Open && JobOutcome(s.orders, after, id)
    requires TakerStranded(s.orders, id)
    ensures j < |after| && j != id && after[j].status == PartiallyFilled && LiveMeets(after[id], after[j])
  {
    j :| j < |s.orders| && s.orders[j].status == PartiallyFilled && Meets(s.orders[id], s.orders[j]);
    OutcomeOfTaker(s, id, after);
    OutcomeOfOther(s, id, after, j);
  }

  // ----- Any two orders

  /** A job takes something of a resting order, but not all of it. */
  ghost predicate PartlyTaken(orders: seq<Order>, id: OrderId, m: OrderId)
    requires PricesNonNegative(orders) && id < |orders| && m < |orders|
  {
    var plan := PlanFor(orders, id);
    exists k :: 0 <= k < |plan.book| && plan.book[k] == m && 0.0 < plan.alloc[k] < Remaining(orders[m])
  }

  lemma OutcomeOfOpen(s: State, id: OrderId, after: seq<Order>, m: OrderId)
    requires Safe(s) && LimitOnly(s) && PricesNonNegative(s.orders)
    requires id < |s.orders| && s.orders[id].status == Open && JobOutcome(s.orders, after, id)
    requires m < |s.orders| && m != id && s.orders[m].status == Open
    ensures after[m].status == PartiallyFilled <==> PartlyTaken(s.orders, id, m)
    ensures after[m].status in {Open, PartiallyFilled, Filled}
    ensures after[m].status == Open ==> after[m] == s.orders[m]
  {
    var plan := PlanFor(s.orders, id);
    if PartlyTaken(s.orders, id, m) {
      var k :| 0 <= k < |plan.book| && plan.book[k] == m && 0.0 < plan.alloc[k] < Remaining(s.orders[m]);
      OutcomeAt(s, id, after, m, k);
    } else if m in plan.book {
      var k :| 0 <= k < |plan.book| && plan.book[k] == m;
      OutcomeAt(s, id, after, m, k);
    }
  }

  lemma OutcomeAt(s: State, id: OrderId, after: seq<Order>, m: OrderId, k: nat)
    requires Safe(s) && LimitOnly(s) && PricesNonNegative(s.orders)
    requires id < |s.orders| && s.orders[id].status == Open && JobOutcome(s.orders, after, id)
    requires m < |s.orders| && s.orders[m].status == Open
    requires k < |PlanFor(s.orders, id).book| && PlanFor(s.orders, id).book[k] == m
    ensures after[m].status == PartiallyFilled <==> 0.0 < PlanFor(s.orders, id).alloc[k] < Remaining(s.orders[m])
    ensures after[m].status in {Open, PartiallyFilled, Filled}
    ensures after[m].status == Open ==> after[m] == s.orders[m]
  {
    LimitPlan(s, id);
    assert PlanFor(s.orders, id).levels[k] == LevelOf(s.orders[m]);
    ProgressOfOpen(s.orders[m], PlanFor(s.orders, id).alloc[k]);
  }

  lemma ProgressOfOpen(o: Order, taken: real)
    requires OrderOk(o) && o.status == Open && 0.0 <= taken <= Remaining(o)
    ensures Progress(o, taken).status == PartiallyFilled <==> 0.0 < taken < Remaining(o)
    ensures Progress(o, taken).status in {Open, PartiallyFilled, Filled}
    ensures Progress(o, taken).status == Open ==> Progress(o, taken) == o
  {
  }

  /** Open, and its own job still to come. */
  predicate Waits(s: State, i: OrderId) {
    i < |s.orders| && s.orders[i].status == Open && i in s.queue
  }

  /** Of any two live orders that would trade with each other, one has its job still to come. */
  ghost predicate CrossingsWait(s: State) {
    forall i: nat, j: nat :: i < |s.orders| && j < |s.orders| && LiveMeets(s.orders[i], s.orders[j]) ==>
      Waits(s, i) || Waits(s, j)
  }

  function Rest(queue: seq<OrderId>, at: nat): seq<OrderId>
    requires at < |queue|
  {
    queue[..at] + queue[at + 1..]
  }

  /** The job takes part of a resting order that another live order would trade with, and that one is not waiting. */
  ghost predicate StrandsPair(s: State, at: nat, m: nat, j: nat)
    requires PricesNonNegative(s.orders) && at < |s.queue| && s.queue[at] < |s.orders|
  {
    && m < |s.orders| && j < |s.orders| && j != s.queue[at]
    && PartlyTaken(s.orders, s.queue[at], m)
    && LiveMeets(s.orders[m], s.orders[j])
    && !(s.orders[j].status == Open && j in Rest(s.queue, at))
  }

  ghost predicate MakerStranded(s: State, at: nat)
    requires PricesNonNegative(s.orders) && at < |s.queue| && s.queue[at] < |s.orders|
  {
    exists m: nat, j: nat :: StrandsPair(s, at, m, j)
  }

  /** The job leaves two live orders that would trade with each other and have both had their jobs. */
  ghost predicate Strands(s: State, at: nat)
    requires PricesNonNegative(s.orders) && at < |s.queue| && s.queue[at] < |s.orders|
  {
    s.orders[s.queue[at]].status == Open && (TakerStranded(s.orders, s.queue[at]) || MakerStranded(s, at))
  }

  /** What is known when the job at a place of the queue has been run. */
  ghost predicate JobRun(s: State, at: nat, after: State)
    requires PricesNonNegative(s.orders) && at < |s.queue|
  {
    && s.queue[at] < |s.orders| && s.orders[s.queue[at]].status == Open
    && JobOutcome(s.orders, after.orders, s.queue[at])
    && after.queue == Rest(s.queue, at)
  }

  lemma OthersStayQueued(queue: seq<OrderId>, at: nat, i: OrderId)
    requires at < |queue| && Distinct(queue)
    ensures i in Rest(queue, at) <==> i in queue && i != queue[at]
  {
    if i in queue && i != queue[at] {
      TakenOut(queue, at, i);
    }
  }

  lemma MeetsIsMutual(o: Order, m: Order)
    ensures Meets(o, m) <==> Meets(m, o)
  {
  }

  /** A waiting order still waits, unless the job was its own or has matched it. */
  lemma WaitsOn(s: State, at: nat, after: State, i: OrderId)
    requires Safe(s) && LimitOnly(s) && PricesNonNegative(s.orders) && Distinct(s.queue)
    requires at < |s.queue| && JobRun(s, at, after)
    requires Waits(s, i) && i != s.queue[at]
    ensures i in after.queue
    ensures Live(after.orders[i]) ==> Waits(after, i) || PartlyTaken(s.orders, s.queue[at], i)
  {
    OthersStayQueued(s.queue, at, i);
    OutcomeOfOpen(s, s.queue[at], after.orders, i);
  }

  /** An order on the taker's own side does not take part in a job. */
  lemma SameSideStays(s: State, id: OrderId, after: seq<Order>, m: OrderId, j: OrderId)
    requires Safe(s) && LimitOnly(s) && PricesNonNegative(s.orders)
    requires id < |s.orders| && s.orders[id].status == Open && JobOutcome(s.orders, after, id)
    requires m < |s.orders| && PartlyTaken(s.orders, id, m)
    requires j < |s.orders| && j != id && Meets(s.orders[m], s.orders[j])
    ensures m != id && s.orders[m].status == Open && after[j] == s.orders[j]
  {
    var k :| 0 <= k < |PlanFor(s.orders, id).book| && PlanFor(s.orders, id).book[k] == m;
    BookMember(s.orders, s.orders[id], k);
    OutcomeOfOther(s, id, after, j);
  }

  /** The static part of two orders decides whether they meet. */
  lemma MetBefore(s: State, id: OrderId, after: seq<Order>, i: OrderId, j: OrderId)
    requires Safe(s) && LimitOnly(s) && PricesNonNegative(s.orders)
    requires id < |s.orders| && s.orders[id].status == Open && JobOutcome(s.orders, after, id)
    requires i < |s.orders| && j < |s.orders|
    ensures Meets(after[i], after[j]) <==> Meets(s.orders[i], s.orders[j])
    ensures Live(after[i]) ==> Live(s.orders[i])
  {
    OutcomeOfTaker(s, id, after);
    if i != id {
      OutcomeOfOther(s, id, after, i);
    }
    if j != id {
      OutcomeOfOther(s, id, after, j);
    }
  }

  /** When the job takes part of a waiting order and strands nothing, whoever would trade with that order waits. */
  lemma OtherWaits(s: State, at: nat, after: State, m: OrderId, j: OrderId)
    requires Safe(s) && LimitOnly(s) && PricesNonNegative(s.orders) && Distinct(s.queue)
    requires at < |s.queue| && JobRun(s, at, after) && !MakerStranded(s, at)
    requires m < |s.orders| && j < |s.orders| && j != s.queue[at]
    requires PartlyTaken(s.orders, s.queue[at], m) && LiveMeets(s.orders[m], s.orders[j])
    ensures Waits(after, j)
  {
    SameSideStays(s, s.queue[at], after.orders, m, j);
    assert !StrandsPair(s, at, m, j);
  }

  /** Without stranding, a pair of which one waited still has one that waits. */
  lemma PairStillWaits(s: State, at: nat, after: State, i: OrderId, j: OrderId)
    requires Safe(s) && LimitOnly(s) && PricesNonNegative(s.orders) && Distinct(s.queue)
    requires at < |s.queue| && JobRun(s, at, after) && !MakerStranded(s, at)
    requires i < |s.orders| && j < |s.orders| && LiveMeets(s.orders[i], s.orders[j]) && Live(after.orders[i])
    requires i != s.queue[at] && j != s.queue[at] && Waits(s, i)
    ensures Waits(after, i) || Waits(after, j)
  {
    WaitsOn(s, at, after, i);
    if PartlyTaken(s.orders, s.queue[at], i) {
      OtherWaits(s, at, after, i, j);
    }
  }

  lemma UnstrandedWaits(s: State, at: nat, after: State)
    requires Safe(s) && LimitOnly(s) && PricesNonNegative(s.orders) && Distinct(s.queue) && CrossingsWait(s)
    requires at < |s.queue| && JobRun(s, at, after) && !Strands(s, at)
    ensures CrossingsWait(after)
  {
    var id := s.queue[at];
    forall i: nat, j: nat | i < |after.orders| && j < |after.orders| && LiveMeets(after.orders[i], after.orders[j])
      ensures Waits(after, i) || Waits(after, j)
    {
      MetBefore(s, id, after.orders, i, j);
      MetBefore(s, id, after.orders, j, i);
      MeetsIsMutual(after.orders[i], after.orders[j]);
      assert LiveMeets(s.orders[i], s.orders[j]) && LiveMeets(s.orders[j], s.orders[i]);
      if i == id {
        CrossedTaker(s, id, after.orders, j);
      } else if j == id {
        CrossedTaker(s, id, after.orders, i);
      } else if Waits(s, i) {
        PairStillWaits(s, at, after, i, j);
      } else {
        PairStillWaits(s, at, after, j, i);
      }
    }
  }

  lemma NobodyWaits(s: State, i: nat, j: nat)
    requires i < |s.orders| && j < |s.orders| && LiveMeets(s.orders[i], s.orders[j]) && !Waits(s, i) && !Waits(s, j)
    ensures !CrossingsWait(s)
  {
  }

  lemma StrandedTakerDoesNotWait(s: State, at: nat, after: State)
    requires Safe(s) && LimitOnly(s) && PricesNonNegative(s.orders) && Distinct(s.queue)
    requires at < |s.queue| && JobRun(s, at, after) && TakerStranded(s.orders, s.queue[at])
    ensures !CrossingsWait(after)
  {
    var j := StrandedTaker(s, s.queue[at], after.orders);
    OthersStayQueued(s.queue, at, s.queue[at]);
    NobodyWaits(after, s.queue[at], j);
  }

  /** A resting order taken in part, and a live order that meets it, after the job. */
  lemma StrandedMaker(s: State, id: OrderId, after: seq<Order>, m: nat, j: nat)
    requires Safe(s) && LimitOnly(s) && PricesNonNegative(s.orders)
    requires id < |s.orders| && s.orders[id].status == Open && JobOutcome(s.orders, after, id)
    requires m < |s.orders| && j < |s.orders| && j != id
    requires PartlyTaken(s.orders, id, m) && LiveMeets(s.orders[m], s.orders[j])
    ensures after[m].status == PartiallyFilled && after[j] == s.orders[j] && LiveMeets(after[m], after[j])
  {
    SameSideStays(s, id, after, m, j);
    OutcomeOfOpen(s, id, after, m);
    MetBefore(s, id, after, m, j);
  }

  lemma StrandedMakerDoesNotWait(s: State, at: nat, after: State)
    requires Safe(s) && LimitOnly(s) && PricesNonNegative(s.orders) && Distinct(s.queue)
    requires at < |s.queue| && JobRun(s, at, after) && MakerStranded(s, at)
    ensures !CrossingsWait(after)
  {
    var id := s.queue[at];
    var m: nat, j: nat :| StrandsPair(s, at, m, j);
    StrandedMaker(s, id, after.orders, m, j);
    NobodyWaits(after, m, j);
  }

  lemma IdleJobWaits(s: State, at: nat, after: State)
    requires CrossingsWait(s) && Distinct(s.queue) && at < |s.queue| && s.queue[at] < |s.orders|
    requires s.orders[s.queue[at]].status != Open && after.orders == s.orders && after.queue == Rest(s.queue, at)
    ensures CrossingsWait(after)
  {
    forall i: nat, j: nat | i < |after.orders| && j < |after.orders| && LiveMeets(after.orders[i], after.orders[j])
      ensures Waits(after, i) || Waits(after, j)
    {
      OthersStayQueued(s.queue, at, i);
      OthersStayQueued(s.queue, at, j);
    }
  }

  /** Exactly when a job leaves the live book crossed: as long as every crossing has waited for a job, it still does
      after this one if and only if the job strands neither its own order nor one that it takes in part. */
  lemma JobStrandsIff(s: State, at: nat, lastAttempt: bool)
    requires Safe(s) && LimitOnly(s) && PricesNonNegative(s.orders) && Distinct(s.queue) && CrossingsWait(s)
    requires at < |s.queue|
    ensures s.queue[at] < |s.orders|
    ensures CrossingsWait(RunJob(s, at, lastAttempt)) <==> !Strands(s, at)
  {
    var after := RunJob(s, at, lastAttempt);
    JobStep(s, at, lastAttempt);
    if s.orders[s.queue[at]].status != Open {
      IdleJobWaits(s, at, after);
    } else if TakerStranded(s.orders, s.queue[at]) {
      StrandedTakerDoesNotWait(s, at, after);
    } else if MakerStranded(s, at) {
      StrandedMakerDoesNotWait(s, at, after);
    } else {
      UnstrandedWaits(s, at, after);
    }
  }

  // ----- Runs

  lemma FewerLiveWait(s: State, after: State)
    requires CrossingsWait(s) && after.queue == s.queue && |after.orders| == |s.orders|
    requires forall i :: 0 <= i < |s.orders| ==>
                           after.orders[i] == s.orders[i] || after.orders[i] == s.orders[i].(status := Cancelled)
    ensures CrossingsWait(after)
  {
    forall i: nat, j: nat | i < |after.orders| && j < |after.orders| && LiveMeets(after.orders[i], after.orders[j])
      ensures Waits(after, i) || Waits(after, j)
    {
      assert LiveMeets(s.orders[i], s.orders[j]);
    }
  }

  lemma PlacedWaits(s: State, after: State, user: UserId, req: Request)
    requires CrossingsWait(s) && Placed(s, after, user, req)
    ensures CrossingsWait(after)
  {
    assert forall i :: 0 <= i < |s.orders| ==> after.orders[i] == after.orders[..|s.orders|][i];
    assert |s.orders| in after.queue;
    forall i: nat, j: nat | i < |after.orders| && j < |after.orders| && LiveMeets(after.orders[i], after.orders[j])
      ensures Waits(after, i) || Waits(after, j)
    {
      if i < |s.orders| && j < |s.orders| {
        assert LiveMeets(s.orders[i], s.orders[j]);
      }
    }
  }

  lemma DistinctRest(queue: seq<OrderId>, at: nat)
    requires Distinct(queue) && at < |queue|
    ensures Distinct(Rest(queue, at))
  {
  }

  lemma DistinctMore(queue: seq<OrderId>, id: OrderId)
    requires Distinct(queue) && Within(queue, id)
    ensures Distinct(queue + [id])
  {
  }

  lemma QueueAfter(s: State, step: Step)
    requires Safe(s) && PricesNonNegative(s.orders)
    ensures var queue := Next(s, step).queue;
            || queue == s.queue
            || (step.Create? && queue == s.queue + [|s.orders|])
            || (step.Run? && step.at < |s.queue| && queue == Rest(s.queue, step.at))
  {
    match step
    case Create(user, req, listing) =>
      if CreateOrder(s, user, req, listing).Ok? {
        CreateSafe(s, user, req, listing);
      }
    case Run(_, _) =>
    case Cancel(user, id) => CancelSafe(s, user, id);
    case Settle(tick) => SettleTickSafe(s, tick);
  }

  lemma DistinctQueue(s: State, step: Step)
    requires Safe(s) && PricesNonNegative(s.orders) && Distinct(s.queue)
    ensures Distinct(Next(s, step).queue)
  {
    QueueAfter(s, step);
    DistinctMore(s.queue, |s.orders|);
    if step.Run? && step.at < |s.queue| {
      DistinctRest(s.queue, step.at);
    }
  }

  /** A step that runs a job which strands an order. */
  ghost predicate StrandingStep(s: State, step: Step)
    requires Safe(s) && PricesNonNegative(s.orders)
  {
    step.Run? && step.at < |s.queue| && Strands(s, step.at)
  }

  /** A step leaves a crossing that waits for no job exactly when it runs a job that strands an order. */
  lemma StepStrandsIff(s: State, step: Step)
    requires Safe(s) && LimitOnly(s) && PricesNonNegative(s.orders) && LimitStep(step)
    requires Distinct(s.queue) && CrossingsWait(s)
    ensures CrossingsWait(Next(s, step)) <==> !StrandingStep(s, step)
  {
    if step.Run? {
      if step.at < |s.queue| {
        JobStrandsIff(s, step.at, step.lastAttempt);
      }
    } else {
      OtherStepsWait(s, step);
    }
  }

  lemma CreateWaits(s: State, user: UserId, req: Request, listing: Option<Listing>, after: State)
    requires Safe(s) && CrossingsWait(s) && CreateOrder(s, user, req, listing) == Ok(after)
    ensures CrossingsWait(after)
  {
    CreateSafe(s, user, req, listing);
    if after != s {
      PlacedWaits(s, after, user, req);
    }
  }

  lemma CancelWaits(s: State, user: UserId, id: OrderId, after: State)
    requires Safe(s) && CrossingsWait(s) && CancelOrder(s, user, id) == Ok(after)
    ensures CrossingsWait(after)
  {
    CancelSafe(s, user, id);
    FewerLiveWait(s, after);
  }

  lemma SettleWaits(s: State, tick: Tick)
    requires Safe(s) && CrossingsWait(s)
    ensures CrossingsWait(SettleTick(s, tick))
  {
    SettleTickSafe(s, tick);
    FewerLiveWait(s, SettleTick(s, tick));
  }

  /** Only jobs can leave a crossing that waits for no job. */
  lemma OtherStepsWait(s: State, step: Step)
    requires Safe(s) && PricesNonNegative(s.orders) && CrossingsWait(s) && !step.Run?
    ensures CrossingsWait(Next(s, step))
  {
    match step
    case Create(user, req, listing) =>
      if CreateOrder(s, user, req, listing).Ok? {
        CreateWaits(s, user, req, listing, CreateOrder(s, user, req, listing).value);
      }
    case Cancel(user, id) =>
      if CancelOrder(s, user, id).Ok? {
        CancelWaits(s, user, id, CancelOrder(s, user, id).value);
      }
    case Settle(tick) => SettleWaits(s, tick);
  }

  /** No step of a run strands an order. */
  ghost predicate NothingStranded(s: State, steps: seq<Step>)
    requires Safe(s)
    decreases |steps|
  {
    if steps == [] then true
    else
      SafePrices(s);
      NextSafe(s, steps[0]);
      !StrandingStep(s, steps[0]) && NothingStranded(Next(s, steps[0]), steps[1..])
  }

  lemma {:induction false} WaitOnward(s: State, steps: seq<Step>)
    requires Safe(s) && LimitOnly(s) && CrossedAreQueued(s) && Distinct(s.queue) && CrossingsWait(s)
    requires (forall n :: 0 <= n < |steps| ==> LimitStep(steps[n])) && NothingStranded(s, steps)
    ensures LimitOnly(Play(s, steps)) && Distinct(Play(s, steps).queue) && CrossingsWait(Play(s, steps))
    decreases |steps|
  {
    if steps != [] {
      SafePrices(s);
      NextSafe(s, steps[0]);
      NextUncrossed(s, steps[0]);
      DistinctQueue(s, steps[0]);
      StepStrandsIff(s, steps[0]);
      WaitOnward(Next(s, steps[0]), steps[1..]);
    }
  }

  /** From an opening, over any limit-only run in which no job has stranded an order, every crossing of live orders
      waits for a job, so the live book is uncrossed when the queue is empty; and the first step that leaves a crossing
      with no job to come is exactly the first that runs a stranding job. */
  lemma LiveBookUncrossed(s: State, steps: seq<Step>, step: Step)
    requires Initial(s) && (forall n :: 0 <= n < |steps| ==> LimitStep(steps[n])) && LimitStep(step)
    requires Safe(s) && NothingStranded(s, steps)
    ensures var now := Play(s, steps);
            && CrossingsWait(now)
            && (now.queue == [] ==>
                  forall i: nat, j: nat :: i < |now.orders| && j < |now.orders| ==>
                    !LiveCrossing(now.orders[i], now.orders[j]))
            && Safe(now) && PricesNonNegative(now.orders)
            && (CrossingsWait(Next(now, step)) <==> !StrandingStep(now, step))
  {
    InitialUncrossed(s);
    WaitOnward(s, steps);
    PlaySafe(s, steps);
    var now := Play(s, steps);
    SafePrices(now);
    StepStrandsIff(now, step);
    NoneWaiting(now);
  }

  lemma NoneWaiting(s: State)
    requires CrossingsWait(s)
    ensures s.queue == [] ==>
              forall i: nat, j: nat :: i < |s.orders| && j < |s.orders| ==> !LiveCrossing(s.orders[i], s.orders[j])
  {
    forall i: nat, j: nat | i < |s.orders| && j < |s.orders| && LiveCrossing(s.orders[i], s.orders[j])
      ensures s.queue != []
    {
      assert LiveMeets(s.orders[i], s.orders[j]);
    }
  }
}
