/** Runs from an opening state in which the exchange does what one would not expect. */
module ExchangeExamples {
  import opened Common
  import opened Balances
  import opened Allocation
  import opened Exchange
  import opened ExchangeSafety
  import opened OrderBook
  import opened ExchangeSteps
  import opened ExchangeRuns
  import opened RestingOrders
  import opened BestExecution
  import opened LiveBook
  import opened Liquidation
  import opened LiquidationCoverage

  const BUYER: UserId := 1
  const SELLER: UserId := 2
  const ASSET: AssetId := 7

  /** One user with cash and one with the asset. */
  function Opened(): State {
    State(map[Cash(BUYER) := Row(100.0, 0.0), Holding(SELLER, ASSET) := Row(10.0, 0.0)], [], [], [], [])
  }

  function Listed(): Option<Listing> {
    Some(Listing(true, true, Some(10.0), 10.0, 0.2))
  }

  function AtTen(side: Side, quantity: real): Request {
    Request(side, Limit, ASSET, quantity, 10.0, None, None)
  }

  function MarketSale(quantity: real): Request {
    Request(Sell, Market, ASSET, quantity, 0.0, None, None)
  }

  function Place(user: UserId, req: Request): Step {
    Create(user, req, Listed())
  }

  lemma OpenedIsInitial()
    ensures Initial(Opened())
  {
  }

  function PriceOf(req: Request): real {
    if req.kind.Limit? then req.price else 0.0
  }

  function Entered(user: UserId, req: Request): Order {
    Order(user, req.asset, req.side, req.kind, PriceOf(req), req.quantity, 0.0, Open, None)
  }

  predicate Plain(req: Request) {
    && ((req.kind.Limit? && req.price == 10.0) || (req.kind.Market? && req.side.Sell? && req.price == 0.0))
    && req.asset == ASSET && req.quantity > 0.0
    && req.key.None? && req.maxTotalCost.None?
  }

  ghost predicate EnteredInto(s: State, user: UserId, req: Request, lock: real, after: State) {
    && Safe(after)
    && after.orders == s.orders + [Entered(user, req)]
    && after.queue == s.queue + [|s.orders|]
    && forall k :: Available(after.rows, k)
                == Available(s.rows, k) - At(k, Collateral(user, req.side, ASSET), lock)
  }

  /** A plain request of a user who can fund it is entered as it stands. */
  lemma Enters(s: State, user: UserId, req: Request, lock: real)
    requires Safe(s) && Plain(req) && lock == LockOf(req.side, req.quantity, PriceOf(req))
    requires 0.0 < lock <= Available(s.rows, Collateral(user, req.side, ASSET))
    ensures PricesNonNegative(s.orders)
    ensures EnteredInto(s, user, req, lock, Next(s, Create(user, req, Listed())))
  {
    SafePrices(s);
    NextSafe(s, Create(user, req, Listed()));
    TransferEffect(s.rows, Collateral(user, req.side, ASSET), lock, AvailableToLocked);
  }

  /** What the runs need of the opening state. */
  ghost predicate Funded(s: State) {
    && Safe(s) && s.orders == [] && s.queue == []
    && Available(s.rows, Cash(BUYER)) == 100.0 && Available(s.rows, Holding(SELLER, ASSET)) == 10.0
  }

  lemma OpenedFunds()
    ensures Funded(Opened())
  {
    InitialSafe(Opened());
  }

  // ----- Repricing an open order

  /** After the price of an open buy is raised, less cash is locked than the order claims. */
  lemma RepricedBuyIsUncovered() returns (s: State)
    ensures PricesNonNegative(Opened().orders) && s == Next(Opened(), Create(BUYER, AtTen(Buy, 5.0), Listed()))
    ensures Safe(s) && |s.orders| == 1 && s.orders[0].status == Open
    ensures !Covered(Repriced(s, 0, 12.0))
  {
    OpenedFunds();
    Enters(Opened(), BUYER, AtTen(Buy, 5.0), 50.0);
    s := Next(Opened(), Create(BUYER, AtTen(Buy, 5.0), Listed()));
    RepricingCoveredIff(s, 0, 12.0);
  }

  // ----- A queued market sale

  lemma DistinctAt(book: seq<OrderId>, i: nat, j: nat)
    requires Distinct(book) && i < j < |book|
    ensures book[i] != book[j]
  {
  }

  lemma OnlyMatch(orders: seq<Order>, taker: Order, j: OrderId)
    requires j < |orders| && forall i: nat :: i < |orders| ==> (Eligible(taker, orders[i]) <==> i == j)
    ensures Book(orders, taker, |orders|) == [j]
  {
    var book := Book(orders, taker, |orders|);
    BookSorted(orders, taker, |orders|);
    assert j in book;
    BookMember(orders, taker, 0);
    if |book| > 1 {
      BookMember(orders, taker, 1);
      DistinctAt(book, 0, 1);
    }
  }

  lemma NoMatch(orders: seq<Order>, taker: Order)
    requires forall i: nat :: i < |orders| ==> !Eligible(taker, orders[i])
    ensures Book(orders, taker, |orders|) == []
  {
    if Book(orders, taker, |orders|) != [] {
      BookMember(orders, taker, 0);
    }
  }

  /** A match at price zero is refused, and with it the whole job. */
  lemma FirstFillAtZero(s: State, id: OrderId)
    requires PricesNonNegative(s.orders) && id < |s.orders| && s.orders[id].status == Open
    requires Fills(s.orders, id) != [] && Fills(s.orders, id)[0].price == 0.0
    ensures MatchOrder(s, id) == Err(AmountNotPositive)
  {
    var fills := Fills(s.orders, id);
    FillsInRange(s.orders, PlanFor(s.orders, id).book, PlanFor(s.orders, id).alloc, s.orders[id].filled);
    assert Pay(fills[0].quantity, 0.0) == 0.0;
    assert ApplyFill(s, id, fills[0]) == Err(AmountNotPositive);
  }

  lemma BuyMeetsSale(s: State)
    requires s.orders == [Entered(BUYER, AtTen(Buy, 5.0)), Entered(SELLER, MarketSale(5.0))]
    ensures PricesNonNegative(s.orders) && MatchOrder(s, 0) == Err(AmountNotPositive)
  {
    OnlyMatch(s.orders, s.orders[0], 1);
    assert PlanFor(s.orders, 0).alloc[0] == 5.0;
    FirstFillAtZero(s, 0);
  }

  lemma BuyEntered(s: State) returns (after: State)
    requires Funded(s)
    ensures PricesNonNegative(s.orders) && after == Next(s, Place(BUYER, AtTen(Buy, 5.0)))
    ensures Safe(after) && after.orders == [Entered(BUYER, AtTen(Buy, 5.0))] && after.queue == [0]
    ensures Available(after.rows, Cash(BUYER)) == 50.0 && Available(after.rows, Holding(SELLER, ASSET)) == 10.0
  {
    Enters(s, BUYER, AtTen(Buy, 5.0), 50.0);
    after := Next(s, Place(BUYER, AtTen(Buy, 5.0)));
  }

  lemma SaleEntered(s: State) returns (after: State)
    requires Safe(s) && s.orders == [Entered(BUYER, AtTen(Buy, 5.0))] && s.queue == [0]
    requires Available(s.rows, Holding(SELLER, ASSET)) == 10.0
    ensures PricesNonNegative(s.orders) && after == Next(s, Place(SELLER, MarketSale(5.0)))
    ensures Safe(after) && after.queue == [0, 1]
    ensures after.orders == [Entered(BUYER, AtTen(Buy, 5.0)), Entered(SELLER, MarketSale(5.0))]
  {
    Enters(s, SELLER, MarketSale(5.0), 5.0);
    after := Next(s, Place(SELLER, MarketSale(5.0)));
  }

  /** A limit buy is placed and, before its job runs, a market sale: the job of the buy, first in the queue, is aborted
      by the ledger. */
  lemma MarketSaleAbortsBuy() returns (start: State, bought: State, s: State)
    ensures Initial(start) && Safe(start) && PricesNonNegative(start.orders)
    ensures bought == Next(start, Place(BUYER, AtTen(Buy, 5.0))) && PricesNonNegative(bought.orders)
    ensures s == Next(bought, Place(SELLER, MarketSale(5.0)))
    ensures s.queue == [0, 1] && PricesNonNegative(s.orders) && MatchOrder(s, 0) == Err(AmountNotPositive)
  {
    OpenedIsInitial();
    OpenedFunds();
    start := Opened();
    bought := BuyEntered(start);
    s := SaleEntered(bought);
    BuyMeetsSale(s);
  }

  // ----- A liquidation with a live sale

  /** A sale is placed, and its owner paid for the liquidated asset: the sale's lock is gone. */
  lemma LiquidatedSaleIsUncovered(price: real) returns (start: State, s: State)
    ensures Initial(start) && Safe(start) && PricesNonNegative(start.orders)
    ensures s == Next(start, Place(SELLER, AtTen(Sell, 3.0)))
    ensures Safe(s) && AreHolders(s.rows, [SELLER], ASSET)
    ensures !Covered(s.(rows := Payouts(s.rows, [SELLER], ASSET, AtPrice(price))))
  {
    OpenedIsInitial();
    OpenedFunds();
    start := Opened();
    Enters(start, SELLER, AtTen(Sell, 3.0), 3.0);
    s := Next(start, Place(SELLER, AtTen(Sell, 3.0)));
    OnlyHolder(start, s);
    LiveSaleIsUncovered(s, [SELLER], ASSET, AtPrice(price), 0);
  }

  lemma OnlyHolder(start: State, s: State)
    requires start == Opened() && EnteredInto(start, SELLER, AtTen(Sell, 3.0), 3.0, s)
    requires s.rows.Keys == start.rows.Keys
    ensures AreHolders(s.rows, [SELLER], ASSET)
  {
    assert Available(s.rows, Holding(SELLER, ASSET)) == 7.0;
    forall u: UserId
      ensures u in [SELLER] <==> Liquidation.Holds(s.rows, u, ASSET)
    {
      assert u != SELLER ==> Holding(u, ASSET) !in s.rows;
    }
  }

  // ----- Runs in queue order

  lemma NextSteps(s: State, step: Step, steps: seq<Step>)
    requires Safe(s)
    ensures PricesNonNegative(s.orders) && Safe(Next(s, step)) && Play(s, [step] + steps) == Play(Next(s, step), steps)
  {
    SafePrices(s);
    NextSafe(s, step);
    assert ([step] + steps)[1..] == steps;
  }

  lemma HeadAndRest(first: seq<Step>, second: seq<Step>)
    requires first != []
    ensures first == [first[0]] + first[1..] && first + second == [first[0]] + (first[1..] + second)
  {
  }

  lemma {:induction false} PlayInTwo(s: State, first: seq<Step>, second: seq<Step>)
    requires Safe(s)
    ensures Safe(Play(s, first)) && Play(s, first + second) == Play(Play(s, first), second)
    decreases |first|
  {
    if first == [] {
      assert first + second == second;
    } else {
      HeadAndRest(first, second);
      NextSteps(s, first[0], first[1..]);
      PlayInTwo(Next(s, first[0]), first[1..], second);
      NextSteps(s, first[0], first[1..] + second);
    }
  }

  lemma OneStep(s: State, step: Step)
    requires Safe(s)
    ensures PricesNonNegative(s.orders) && Play(s, [step]) == Next(s, step)
  {
    NextSteps(s, step, []);
    assert [step] + [] == [step];
  }

  lemma PlanOfOne(orders: seq<Order>, id: OrderId, j: OrderId, q: real)
    requires PricesNonNegative(orders) && id < |orders| && j < |orders| && orders[id].kind.Limit?
    requires Book(orders, orders[id], |orders|) == [j] && 0.0 < q == orders[id].quantity < Remaining(orders[j])
    ensures PlanFor(orders, id).book == [j] && PlanFor(orders, id).alloc == [q] && Quantity([q]) == q
  {
    var levels := Levels(orders, [j]);
    assert levels == [LevelOf(orders[j])];
    assert Allocate(levels, q, None, 0.0) == [q] + Allocate(levels[1..], 0.0, None, Pay(q, orders[j].price));
    assert Quantity([q]) == q + Quantity([]);
  }

  lemma OneMatch(before: seq<Order>, after: seq<Order>, id: OrderId, j: OrderId, q: real)
    requires PricesNonNegative(before) && id < |before| && j < |before| && q > 0.0
    requires JobOutcome(before, after, id) && q == before[id].quantity
    requires PlanFor(before, id).book == [j] && PlanFor(before, id).alloc == [q] && Quantity([q]) == q
    ensures |after| == |before| && after[j] == Advance(before[j], q)
    ensures after[id] == before[id].(filled := q, status := Filled)
    ensures forall i: nat :: i < |after| && i != id && i != j ==> after[i] == before[i]
  {
    assert PlanFor(before, id).book[0] == j;
  }

  /** Limit trading in the order of the queue: one worker takes the first job. */
  predicate InTurn(step: Step) {
    LimitStep(step) && (step.Run? ==> step.at == 0)
  }

  ghost predicate Reaches(s: State, steps: seq<Step>, now: State) {
    Safe(s) && now == Play(s, steps) && Safe(now) && forall n :: 0 <= n < |steps| ==> InTurn(steps[n])
  }

  /** A step that runs a job which strands its own order. */
  ghost predicate TakerStep(s: State, step: Step)
    requires Safe(s)
  {
    && step.Run? && step.at < |s.queue|
    && s.orders[s.queue[step.at]].status == Open && TakerStranded(s.orders, s.queue[step.at])
  }

  /** No job of a run has stranded its own order. */
  ghost predicate TakersServed(s: State, steps: seq<Step>)
    requires Safe(s)
    decreases |steps|
  {
    if steps == [] then true
    else
      var n := |steps| - 1;
      PlaySafe(s, steps[..n]);
      TakersServed(s, steps[..n]) && !TakerStep(Play(s, steps[..n]), steps[n])
  }

  lemma Extend(s: State, steps: seq<Step>, mid: State, step: Step) returns (more: seq<Step>, now: State)
    requires Reaches(s, steps, mid) && InTurn(step)
    ensures PricesNonNegative(mid.orders) && now == Next(mid, step)
    ensures more == steps + [step] && Reaches(s, more, now)
    ensures TakersServed(s, steps) && !TakerStep(mid, step) ==> TakersServed(s, more)
  {
    assert (steps + [step])[..|steps|] == steps;
    PlayInTwo(s, steps, [step]);
    OneStep(mid, step);
    NextSafe(mid, step);
    more, now := steps + [step], Next(mid, step);
  }

  /** A job that finds nobody changes nothing but the queue. */
  lemma IdleJob(s: State, id: OrderId)
    requires PricesNonNegative(s.orders) && id < |s.orders| && s.orders[id].kind.Limit?
    requires Book(s.orders, s.orders[id], |s.orders|) == []
    ensures MatchOrder(s, id) == Ok(s)
  {
    assert PlanFor(s.orders, id).alloc == [] && Fills(s.orders, id) == [];
  }

  lemma HeadRuns(s: State, after: State)
    requires PricesNonNegative(s.orders) && s.queue != [] && MatchOrder(s, s.queue[0]) == Ok(after)
    ensures Next(s, Run(0, true)) == after.(queue := s.queue[1..])
  {
    assert s.queue[..0] + s.queue[1..] == s.queue[1..];
  }

  ghost predicate Holds(s: State, cash: real, asset: real) {
    Available(s.rows, Cash(BUYER)) == cash && Available(s.rows, Holding(SELLER, ASSET)) == asset
  }

  function BuyOfFive(): Order {
    Entered(BUYER, AtTen(Buy, 5.0))
  }

  ghost predicate BuyRests(s: State) {
    s.orders == [BuyOfFive()] && s.queue == [] && Holds(s, 50.0, 10.0)
  }

  /** The buy of five is placed, and its job finds nobody. */
  lemma BuyOfFiveRests(s: State) returns (steps: seq<Step>, now: State)
    requires Funded(s)
    ensures Reaches(s, steps, now) && BuyRests(now) && TakersServed(s, steps)
  {
    var placing, bought := Extend(s, [], s, Place(BUYER, AtTen(Buy, 5.0)));
    var entered := BuyEntered(s);
    NoMatch(bought.orders, bought.orders[0]);
    IdleJob(bought, 0);
    steps, now := Extend(s, placing, bought, Run(0, true));
    HeadRuns(bought, bought);
  }

  predicate PartOfFive(o: Order) {
    o == Advance(BuyOfFive(), 3.0)
  }

  predicate IsFilled(o: Order) {
    o.status == Filled && o.kind.Limit? && o.price == 10.0
  }

  ghost predicate BuyPartlyFilled(s: State) {
    && |s.orders| == 2 && PartOfFive(s.orders[0]) && IsFilled(s.orders[1])
    && s.queue == [] && Holds(s, 50.0, 7.0)
  }

  lemma SaleOfThreePlaced(s: State) returns (now: State)
    requires Safe(s) && BuyRests(s)
    ensures PricesNonNegative(s.orders) && now == Next(s, Place(SELLER, AtTen(Sell, 3.0))) && Safe(now)
    ensures |now.orders| == 2 && now.orders[0] == BuyOfFive() && now.orders[1] == Entered(SELLER, AtTen(Sell, 3.0))
    ensures now.queue == [1] && Holds(now, 50.0, 7.0)
  {
    Enters(s, SELLER, AtTen(Sell, 3.0), 3.0);
    now := Next(s, Place(SELLER, AtTen(Sell, 3.0)));
  }

  lemma SaleOfThreeMatches(s: State)
    requires Safe(s) && |s.orders| == 2
    requires s.orders[0] == BuyOfFive() && s.orders[1] == Entered(SELLER, AtTen(Sell, 3.0)) && Holds(s, 50.0, 7.0)
    ensures PricesNonNegative(s.orders) && MatchOrder(s, 1).Ok?
    ensures var after := MatchOrder(s, 1).value;
            && |after.orders| == 2 && PartOfFive(after.orders[0]) && IsFilled(after.orders[1])
            && Holds(after, 50.0, 7.0)
  {
    LimitJobsCommit(s, 1);
    OnlyMatch(s.orders, s.orders[1], 0);
    PlanOfOne(s.orders, 1, 0, 3.0);
    MatchOrderOrders(s, 1);
    OneMatch(s.orders, MatchOrder(s, 1).value.orders, 1, 0, 3.0);
    LimitJobAvailable(s, 1, Cash(BUYER));
    LimitJobAvailable(s, 1, Holding(SELLER, ASSET));
  }

  lemma NoPartials(orders: seq<Order>, id: OrderId)
    requires id < |orders| && forall j: nat :: j < |orders| ==> orders[j].status != PartiallyFilled
    ensures !TakerStranded(orders, id)
  {
  }

  lemma SaleOfThreeIsServed(s: State)
    requires Safe(s) && |s.orders| == 2 && s.queue == [1]
    requires s.orders[0].status == Open && s.orders[1].status == Open
    ensures !TakerStep(s, Run(0, true))
  {
    NoPartials(s.orders, 1);
  }

  lemma SaleOfThreeRuns(s: State) returns (now: State)
    requires Safe(s) && |s.orders| == 2 && s.queue == [1]
    requires s.orders[0] == BuyOfFive() && s.orders[1] == Entered(SELLER, AtTen(Sell, 3.0)) && Holds(s, 50.0, 7.0)
    ensures PricesNonNegative(s.orders) && now == Next(s, Run(0, true)) && BuyPartlyFilled(now)
  {
    SaleOfThreeMatches(s);
    var after := MatchOrder(s, 1).value;
    HeadRuns(s, after);
    now := after.(queue := []);
  }

  /** A sale of three is placed, and its job fills part of the buy. */
  lemma SaleOfThreeFills(s: State, first: seq<Step>, mid: State) returns (steps: seq<Step>, now: State)
    requires Reaches(s, first, mid) && BuyRests(mid) && TakersServed(s, first)
    ensures Reaches(s, steps, now) && BuyPartlyFilled(now) && TakersServed(s, steps)
  {
    var placing, sold := Extend(s, first, mid, Place(SELLER, AtTen(Sell, 3.0)));
    var entered := SaleOfThreePlaced(mid);
    var matched := SaleOfThreeRuns(sold);
    SaleOfThreeIsServed(sold);
    steps, now := Extend(s, placing, sold, Run(0, true));
  }

  /** Two live orders that cross, and no job to come. */
  ghost predicate LeftCrossed(s: State, i: nat, j: nat) {
    s.queue == [] && i < |s.orders| && j < |s.orders| && LiveCrossing(s.orders[i], s.orders[j])
  }

  lemma SaleOfTwoRests(s: State)
    requires Safe(s) && BuyPartlyFilled(s)
    ensures PricesNonNegative(s.orders)
    ensures var sold := Next(s, Place(SELLER, AtTen(Sell, 2.0)));
            && PricesNonNegative(sold.orders) && MatchOrder(sold, 2) == Ok(sold)
            && sold.queue == [2] && |sold.orders| == 3 && LiveCrossing(sold.orders[0], sold.orders[2])
            && sold.orders[0].status == PartiallyFilled && sold.orders[2].status == Open
  {
    Enters(s, SELLER, AtTen(Sell, 2.0), 2.0);
    var sold := Next(s, Place(SELLER, AtTen(Sell, 2.0)));
    SafePrices(sold);
    NoMatch(sold.orders, sold.orders[2]);
    IdleJob(sold, 2);
  }

  lemma SaleOfTwoRuns(s: State, now: State)
    requires PricesNonNegative(s.orders) && MatchOrder(s, 2) == Ok(s) && s.queue == [2] && now == Next(s, Run(0, true))
    ensures now.orders == s.orders && now.queue == []
  {
    HeadRuns(s, s);
  }

  /** The buy of five and the sale of three, each followed by its job. */
  lemma BuyIsPartlyFilled() returns (s: State, steps: seq<Step>, now: State)
    ensures Initial(s) && Reaches(s, steps, now) && BuyPartlyFilled(now) && TakersServed(s, steps)
  {
    OpenedIsInitial();
    OpenedFunds();
    s := Opened();
    var first, rests := BuyOfFiveRests(s);
    steps, now := SaleOfThreeFills(s, first, rests);
  }

  /** A buy of five, then a sale of three, then a sale of two, each followed by its job: a limit-only run in queue order
      that ends with two live orders that cross, the buy partly filled and the second sale untouched. */
  lemma PartlyFilledOrderCrosses() returns (s: State, steps: seq<Step>, now: State)
    ensures Initial(s) && Reaches(s, steps, now) && LeftCrossed(now, 0, 2)
    ensures now.orders[0].status == PartiallyFilled && now.orders[2].status == Open
  {
    var first, second, partly, sold;
    s, first, partly := BuyIsPartlyFilled();
    second, sold := Extend(s, first, partly, Place(SELLER, AtTen(Sell, 2.0)));
    SaleOfTwoRests(partly);
    steps, now := Extend(s, second, sold, Run(0, true));
    SaleOfTwoRuns(sold, now);
  }

  // ----- A resting order that is taken in part

  predicate FourOrders(orders: seq<Order>) {
    && |orders| == 4 && PartOfFive(orders[0]) && IsFilled(orders[1])
    && orders[2] == Entered(BUYER, AtTen(Buy, 1.0)) && orders[3] == Entered(SELLER, AtTen(Sell, 2.0))
  }

  lemma BuyOfOnePlaced(s: State) returns (now: State)
    requires Safe(s) && BuyPartlyFilled(s)
    ensures PricesNonNegative(s.orders) && now == Next(s, Place(BUYER, AtTen(Buy, 1.0))) && Safe(now)
    ensures |now.orders| == 3 && PartOfFive(now.orders[0]) && IsFilled(now.orders[1])
    ensures now.orders[2] == Entered(BUYER, AtTen(Buy, 1.0)) && now.queue == [2] && Holds(now, 40.0, 7.0)
  {
    Enters(s, BUYER, AtTen(Buy, 1.0), 10.0);
    now := Next(s, Place(BUYER, AtTen(Buy, 1.0)));
  }

  lemma SaleOfTwoPlaced(s: State) returns (now: State)
    requires Safe(s) && |s.orders| == 3 && PartOfFive(s.orders[0]) && IsFilled(s.orders[1])
    requires s.orders[2] == Entered(BUYER, AtTen(Buy, 1.0)) && s.queue == [2] && Holds(s, 40.0, 7.0)
    ensures PricesNonNegative(s.orders) && now == Next(s, Place(SELLER, AtTen(Sell, 2.0))) && Safe(now)
    ensures FourOrders(now.orders) && now.queue == [2, 3]
  {
    Enters(s, SELLER, AtTen(Sell, 2.0), 2.0);
    now := Next(s, Place(SELLER, AtTen(Sell, 2.0)));
  }

  lemma BookOfOne(s: State)
    requires Safe(s) && FourOrders(s.orders)
    ensures PricesNonNegative(s.orders)
    ensures Book(s.orders, s.orders[2], |s.orders|) == [3]
    ensures PlanFor(s.orders, 2).book == [3] && PlanFor(s.orders, 2).alloc == [1.0] && Quantity([1.0]) == 1.0
  {
    SafePrices(s);
    OnlyMatch(s.orders, s.orders[2], 3);
    PlanOfOne(s.orders, 2, 3, 1.0);
  }

  /** The buy of one is filled from the sale of two, which crosses the rest of the buy of five. */
  lemma BuyOfOneMatches(s: State)
    requires Safe(s) && FourOrders(s.orders)
    ensures PricesNonNegative(s.orders) && MatchOrder(s, 2).Ok?
    ensures var after := MatchOrder(s, 2).value.orders;
            && |after| == 4 && after[0] == s.orders[0]
            && after[3].status == PartiallyFilled && LiveCrossing(after[0], after[3])
  {
    LimitJobsCommit(s, 2);
    BookOfOne(s);
    MatchOrderOrders(s, 2);
    OneMatch(s.orders, MatchOrder(s, 2).value.orders, 2, 3, 1.0);
  }

  lemma BuyOfOneStrands(s: State)
    requires Safe(s) && FourOrders(s.orders) && s.queue == [2, 3]
    ensures PricesNonNegative(s.orders) && !TakerStranded(s.orders, 2) && Strands(s, 0)
  {
    BookOfOne(s);
    DepthOfOne(s.orders, 2, 3);
    assert PlanFor(s.orders, 2).book[0] == 3;
    assert StrandsPair(s, 0, 3, 0);
  }

  lemma DepthOfOne(orders: seq<Order>, id: OrderId, j: OrderId)
    requires id < |orders| && j < |orders| && Book(orders, orders[id], |orders|) == [j]
    ensures Depth(LevelsOf(orders, id)) == Max(Remaining(orders[j]), 0.0)
  {
    var levels := LevelsOf(orders, id);
    assert levels == [LevelOf(orders[j])];
    assert Depth(levels[1..]) == 0.0;
  }

  lemma BuyOfOneRuns(s: State) returns (now: State)
    requires Safe(s) && FourOrders(s.orders) && s.queue == [2, 3]
    ensures PricesNonNegative(s.orders) && !TakerStep(s, Run(0, true)) && now == Next(s, Run(0, true))
    ensures |now.orders| == 4 && now.queue == [3]
    ensures now.orders[3].status == PartiallyFilled && LiveCrossing(now.orders[0], now.orders[3])
  {
    BuyOfOneMatches(s);
    BuyOfOneStrands(s);
    HeadRuns(s, MatchOrder(s, 2).value);
    now := MatchOrder(s, 2).value.(queue := [3]);
  }

  lemma SaleOfTwoIsDone(s: State) returns (now: State)
    requires Safe(s) && |s.orders| == 4 && s.queue == [3] && s.orders[3].status == PartiallyFilled
    ensures PricesNonNegative(s.orders) && !TakerStep(s, Run(0, true)) && now == Next(s, Run(0, true))
    ensures now.orders == s.orders && now.queue == []
  {
    SafePrices(s);
    HeadRuns(s, s);
    now := s.(queue := []);
  }

  /** Serving every job's own order is not enough: a limit-only run in queue order in which no job strands its own
      order, and which ends with two partly filled orders that cross. A job has taken the second of them in part. */
  lemma PartlyTakenOrderCrosses() returns (s: State, steps: seq<Step>, now: State)
    ensures Initial(s) && Reaches(s, steps, now) && TakersServed(s, steps) && LeftCrossed(now, 0, 3)
  {
    var first, partly, second, bought, third, sold, fourth, matched;
    s, first, partly := BuyIsPartlyFilled();
    second, bought := Extend(s, first, partly, Place(BUYER, AtTen(Buy, 1.0)));
    var three := BuyOfOnePlaced(partly);
    third, sold := Extend(s, second, bought, Place(SELLER, AtTen(Sell, 2.0)));
    var four := SaleOfTwoPlaced(bought);
    fourth, matched := Extend(s, third, sold, Run(0, true));
    var run := BuyOfOneRuns(sold);
    steps, now := Extend(s, fourth, matched, Run(0, true));
    var done := SaleOfTwoIsDone(matched);
  }
}
