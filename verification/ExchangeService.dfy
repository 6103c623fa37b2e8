/** The services as they run: loops over stored tables, one transaction or cron tick at a time. */
module ExchangeService {
  import opened Common
  import opened Balances
  import opened Allocation
  import opened Exchange
  import opened ExchangeSafety
  import opened ExchangeSteps
  import opened ExchangeRuns
  import opened BulkCancellation
  import opened SettlementSafety

  class TradingLedgerService {
    const balances: BalancesService

    constructor (balances: BalancesService)
      ensures this.balances == balances
    {
      this.balances := balances;
    }

    method LockFunds(user: UserId, side: Side, asset: AssetId, quantity: real, price: real)
      returns (r: Result<(), LedgerError>)
      modifies balances
      ensures match LockOrderFunds(old(balances.rows), user, side, asset, quantity, price)
              case Ok(after) => r.Ok? && balances.rows == after
              case Err(e) => r == Err(e) && balances.rows == old(balances.rows)
    {
      if side.Buy? {
        r := balances.Transfer(Cash(user), Pay(quantity, price), AvailableToLocked);
      } else {
        r := balances.Transfer(Holding(user, asset), quantity, AvailableToLocked);
      }
    }

    method UnlockRemainder(user: UserId, side: Side, asset: AssetId, remaining: real, price: real)
      returns (r: Result<(), LedgerError>)
      modifies balances
      ensures match UnlockOrderRemainder(old(balances.rows), user, side, asset, remaining, price)
              case Ok(after) => r.Ok? && balances.rows == after
              case Err(e) => r == Err(e) && balances.rows == old(balances.rows)
    {
      if remaining <= 0.0 {
        return Ok(());
      }
      if side.Buy? {
        r := balances.Transfer(Cash(user), Pay(remaining, price), LockedToAvailable);
      } else {
        r := balances.Transfer(Holding(user, asset), remaining, LockedToAvailable);
      }
    }

    /** A throw half way leaves the rows to the surrounding transaction to restore. */
    method Settle(buyer: UserId, seller: UserId, asset: AssetId, quantity: real, price: real)
      returns (r: Result<(), LedgerError>)
      modifies balances
      ensures match SettleMatch(old(balances.rows), buyer, seller, asset, quantity, price)
              case Ok(after) => r.Ok? && balances.rows == after
              case Err(e) => r == Err(e)
    {
      var quote := Pay(quantity, price);
      r := balances.UpdateBalance(Cash(buyer), quote, Debit, false, true);
      if r.Ok? {
        r := balances.UpdateBalance(Holding(buyer, asset), quantity, Credit, false, true);
      }
      if r.Ok? {
        r := balances.UpdateBalance(Holding(seller, asset), quantity, Debit, false, true);
      }
      if r.Ok? {
        r := balances.UpdateBalance(Cash(seller), quote, Credit, false, true);
      }
    }

    method Refund(buyer: UserId, amount: real) returns (r: Result<(), LedgerError>)
      modifies balances
      ensures match RefundBuyer(old(balances.rows), buyer, amount)
              case Ok(after) => r.Ok? && balances.rows == after
              case Err(e) => r == Err(e) && balances.rows == old(balances.rows)
    {
      if amount <= 0.0 {
        return Ok(());
      }
      r := balances.Transfer(Cash(buyer), amount, LockedToAvailable);
    }
  }

  // ----- The planning loop

  lemma {:induction false} ZerosFillNothing(orders: seq<Order>, book: seq<OrderId>, takerFilled: real)
    requires Within(book, |orders|)
    ensures FillsFor(orders, book, Zeros(|book|), takerFilled) == []
  {
    if book != [] {
      ZerosFillNothing(orders, book[1..], takerFilled);
      assert Zeros(|book|)[1..] == Zeros(|book[1..]|);
    }
  }

  /** What is still to come of a plan once its loop has come to some entry. */
  ghost predicate Ahead(orders: seq<Order>, book: seq<OrderId>, alloc: seq<real>, filled: real,
                        fills: seq<Fill>, remaining: real, cost: real,
       allFills: seq<Fill>, allRemaining: real, allCost: real)
    requires |alloc| == |book| && Within(book, |orders|)
  {
    && fills + FillsFor(orders, book, alloc, filled) == allFills
    && remaining - Quantity(alloc) == allRemaining
    && cost + Cost(Levels(orders, book), alloc) == allCost
  }

  lemma NothingAhead(
    orders: seq<Order>, book: seq<OrderId>, filled: real, fills: seq<Fill>, remaining: real, cost: real,
    allFills: seq<Fill>, allRemaining: real, allCost: real)
    requires Within(book, |orders|)
    requires Ahead(orders, book, Zeros(|book|), filled, fills, remaining, cost, allFills, allRemaining, allCost)
    ensures fills == allFills && remaining == allRemaining && cost == allCost
  {
    ZerosFillNothing(orders, book, filled);
    ZerosAreNothing(Levels(orders, book));
  }

  /** One entry of the book moves from what is ahead to what is done. */
  lemma OneAhead(
    orders: seq<Order>, book: seq<OrderId>, alloc: seq<real>, filled: real, fills: seq<Fill>, remaining: real,
    cost: real, allFills: seq<Fill>, allRemaining: real, allCost: real)
    requires |alloc| == |book| && Within(book, |orders|) && book != [] && alloc[0] >= 0.0
    requires Ahead(orders, book, alloc, filled, fills, remaining, cost, allFills, allRemaining, allCost)
    ensures var maker := orders[book[0]];
            var made := if alloc[0] <= 0.0 then fills
                        else fills + [Fill(book[0], alloc[0], maker.price, filled + alloc[0], maker.filled + alloc[0])];
            Ahead(orders, book[1..], alloc[1..], filled + alloc[0], made, remaining - alloc[0],
                  cost + Pay(alloc[0], maker.price), allFills, allRemaining, allCost)
  {
    assert Levels(orders, book)[1..] == Levels(orders, book[1..]);
    if alloc[0] > 0.0 {
      FillsTail(orders, book, alloc, filled, filled + alloc[0]);
      var made := fills + [FillsFor(orders, book, alloc, filled)[0]];
      assert made + FillsFor(orders, book[1..], alloc[1..], filled + alloc[0])
          == fills + FillsFor(orders, book, alloc, filled);
    }
  }

  /** Where the planning loop stands: before entry i, with these accumulators. */
  datatype Position = Position(i: nat, filled: real, fills: seq<Fill>, remaining: real, cost: real)

  /** What the loop is heading for. */
  datatype Goal = Goal(fills: seq<Fill>, remaining: real, cost: real)

  ghost predicate Planning(orders: seq<Order>, book: seq<OrderId>, cap: Option<real>, p: Position, goal: Goal)
    requires Within(book, |orders|)
  {
    && p.i <= |book|
    && p.remaining >= 0.0
    && var levels := Levels(orders, book[p.i..]);
       && Affordable(levels, cap, p.cost)
       && Ahead(orders, book[p.i..], Allocate(levels, p.remaining, cap, p.cost), p.filled,
                p.fills, p.remaining, p.cost, goal.fills, goal.remaining, goal.cost)
  }

  function FillAt(maker: Order, id: OrderId, t: real, filled: real): Fill {
    Fill(id, t, maker.price, filled + t, maker.filled + t)
  }

  /** The loop takes t from its entry and goes on; nothing is matched when t is zero. */
  function Advanced(orders: seq<Order>, maker: OrderId, p: Position, t: real): Position
    requires maker < |orders|
  {
    var fills := if t <= 0.0 then p.fills else p.fills + [FillAt(orders[maker], maker, t, p.filled)];
    Position(p.i + 1, p.filled + t, fills, p.remaining - t, p.cost + Pay(t, orders[maker].price))
  }

  lemma PlanOnward(orders: seq<Order>, book: seq<OrderId>, cap: Option<real>, p: Position, goal: Goal, t: real,
                   alloc: seq<real>, next: Position)
    requires Within(book, |orders|) && p.i < |book| == |alloc| + p.i
    requires Ahead(orders, book[p.i..], alloc, p.filled, p.fills, p.remaining, p.cost,
                   goal.fills, goal.remaining, goal.cost)
    requires 0.0 <= t <= p.remaining && t == alloc[0]
    requires next == Advanced(orders, book[p.i], p, t)
    requires Affordable(Levels(orders, book[p.i + 1..]), cap, next.cost)
    requires alloc[1..] == Allocate(Levels(orders, book[p.i + 1..]), next.remaining, cap, next.cost)
    ensures Planning(orders, book, cap, next, goal)
  {
    assert book[p.i..][1..] == book[p.i + 1..];
    OneAhead(orders, book[p.i..], alloc, p.filled, p.fills, p.remaining, p.cost, goal.fills, goal.remaining, goal.cost);
  }

  /** The loop's decision at an entry: how much to take of it, or none to stop. */
  function Decision(maker: Order, cap: Option<real>, remaining: real, cost: real): (decision: Option<real>)
    requires maker.price >= 0.0 && remaining >= 0.0 && (cap.Some? ==> cost <= cap.value)
    ensures decision.Some? ==> 0.0 <= decision.value <= remaining
    ensures decision.Some? && cap.Some? ==> cost + Pay(decision.value, maker.price) <= cap.value
  {
    var q := Min(remaining, Remaining(maker));
    if remaining == 0.0 then None
    else if Remaining(maker) <= 0.0 then Some(0.0)
    else if cap.Some? && cost + Pay(q, maker.price) > cap.value then
      PartOfBudget(cap.value - cost, maker.price, q);
      var part := (cap.value - cost) / maker.price;
      if part <= 0.0 then None else Some(part)
    else Some(q)
  }

  /** A decision at an entry is what the allocation takes there before these other entries; with none it takes no more.
      */
  ghost predicate TakesBefore(
    maker: Order, rest: seq<Level>, cap: Option<real>, remaining: real, spent: real, decision: Option<real>)
    requires Affordable([LevelOf(maker)] + rest, cap, spent)
  {
    match decision
    case None => Allocate([LevelOf(maker)] + rest, remaining, cap, spent) == Zeros(1 + |rest|)
    case Some(t) =>
      && Affordable(rest, cap, spent + Pay(t, maker.price))
      && Allocate([LevelOf(maker)] + rest, remaining, cap, spent)
         == [t] + Allocate(rest, remaining - t, cap, spent + Pay(t, maker.price))
  }

  /** Whatever entries follow. */
  ghost predicate Takes(maker: Order, cap: Option<real>, remaining: real, spent: real, decision: Option<real>) {
    forall rest: seq<Level> :: Affordable([LevelOf(maker)] + rest, cap, spent) ==>
                                 TakesBefore(maker, rest, cap, remaining, spent, decision)
  }

  lemma AffordableRest(level: Level, rest: seq<Level>, cap: Option<real>, spent: real, more: real)
    requires Affordable([level] + rest, cap, spent) && (cap.Some? ==> more <= cap.value)
    ensures Affordable(rest, cap, more)
  {
    assert forall i :: 0 <= i < |rest| ==> rest[i] == ([level] + rest)[i + 1];
  }

  lemma DecisionTakesBefore(
    maker: Order, rest: seq<Level>, levels: seq<Level>, cap: Option<real>, remaining: real, spent: real)
    requires levels == [LevelOf(maker)] + rest && Affordable(levels, cap, spent)
    requires maker.price >= 0.0 && remaining >= 0.0 && (cap.Some? ==> spent <= cap.value)
    ensures TakesBefore(maker, rest, cap, remaining, spent, Decision(maker, cap, remaining, spent))
  {
    var decision := Decision(maker, cap, remaining, spent);
    var t, goesOn := Round(levels, remaining, cap, spent);
    assert levels[0] == LevelOf(maker) && levels[1..] == rest;
    if decision.Some? {
      AffordableRest(LevelOf(maker), rest, cap, spent, spent + Pay(decision.value, maker.price));
      assert goesOn && t == decision.value;
    }
  }

  lemma DecisionTakes(maker: Order, cap: Option<real>, remaining: real, spent: real)
    requires maker.price >= 0.0 && remaining >= 0.0 && (cap.Some? ==> spent <= cap.value)
    ensures Takes(maker, cap, remaining, spent, Decision(maker, cap, remaining, spent))
  {
    forall rest: seq<Level> | Affordable([LevelOf(maker)] + rest, cap, spent)
      ensures TakesBefore(maker, rest, cap, remaining, spent, Decision(maker, cap, remaining, spent))
    {
      DecisionTakesBefore(maker, rest, [LevelOf(maker)] + rest, cap, remaining, spent);
    }
  }

  predicate InBudget(p: Position, cap: Option<real>) {
    p.remaining >= 0.0 && (cap.Some? ==> p.cost <= cap.value)
  }

  /** The rest of the loop from a position. */
  function LoopFrom(orders: seq<Order>, book: seq<OrderId>, cap: Option<real>, p: Position): Goal
    requires PricesNonNegative(orders) && Within(book, |orders|) && InBudget(p, cap)
    decreases |book| - p.i
  {
    if p.i >= |book| then Goal(p.fills, p.remaining, p.cost)
    else
      match Decision(orders[book[p.i]], cap, p.remaining, p.cost)
      case None => Goal(p.fills, p.remaining, p.cost)
      case Some(t) => LoopFrom(orders, book, cap, Advanced(orders, book[p.i], p, t))
  }

  lemma PlanRound(orders: seq<Order>, book: seq<OrderId>, cap: Option<real>, p: Position, goal: Goal)
    requires PricesNonNegative(orders) && Within(book, |orders|) && p.i < |book|
    requires Planning(orders, book, cap, p, goal)
    ensures cap.Some? ==> p.cost <= cap.value
    ensures match Decision(orders[book[p.i]], cap, p.remaining, p.cost)
            case None => Goal(p.fills, p.remaining, p.cost) == goal
            case Some(t) => Planning(orders, book, cap, Advanced(orders, book[p.i], p, t), goal)
  {
    var maker, rest := orders[book[p.i]], Levels(orders, book[p.i + 1..]);
    var levels := Levels(orders, book[p.i..]);
    LevelsHead(orders, book, p.i, levels, rest);
    DecisionTakesBefore(maker, rest, levels, cap, p.remaining, p.cost);
    DecisionPlans(orders, book, cap, p, goal, levels, rest, Decision(maker, cap, p.remaining, p.cost));
  }

  lemma LevelsHead(orders: seq<Order>, book: seq<OrderId>, i: nat, levels: seq<Level>, rest: seq<Level>)
    requires Within(book, |orders|) && i < |book|
    requires levels == Levels(orders, book[i..]) && rest == Levels(orders, book[i + 1..])
    ensures levels == [LevelOf(orders[book[i]])] + rest
  {
  }

  lemma DecisionPlans(orders: seq<Order>, book: seq<OrderId>, cap: Option<real>, p: Position, goal: Goal,
                      levels: seq<Level>, rest: seq<Level>, decision: Option<real>)
    requires Within(book, |orders|) && p.i < |book| && Planning(orders, book, cap, p, goal)
    requires levels == Levels(orders, book[p.i..]) && rest == Levels(orders, book[p.i + 1..])
    requires levels == [LevelOf(orders[book[p.i]])] + rest
    requires decision.Some? ==> 0.0 <= decision.value <= p.remaining
    requires TakesBefore(orders[book[p.i]], rest, cap, p.remaining, p.cost, decision)
    ensures match decision
            case None => Goal(p.fills, p.remaining, p.cost) == goal
            case Some(t) => Planning(orders, book, cap, Advanced(orders, book[p.i], p, t), goal)
  {
    match decision
    case None =>
      NothingAhead(orders, book[p.i..], p.filled, p.fills, p.remaining, p.cost, goal.fills, goal.remaining, goal.cost);
    case Some(t) =>
      var alloc := Allocate(levels, p.remaining, cap, p.cost);
      PlanOnward(orders, book, cap, p, goal, t, alloc, Advanced(orders, book[p.i], p, t));
  }

  lemma {:induction false} LoopReachesGoal(
    orders: seq<Order>, book: seq<OrderId>, cap: Option<real>, p: Position, goal: Goal)
    requires PricesNonNegative(orders) && Within(book, |orders|)
    requires Planning(orders, book, cap, p, goal)
    ensures InBudget(p, cap) && LoopFrom(orders, book, cap, p) == goal
    decreases |book| - p.i
  {
    if p.i < |book| {
      PlanRound(orders, book, cap, p, goal);
      var decision := Decision(orders[book[p.i]], cap, p.remaining, p.cost);
      if decision.Some? {
        LoopReachesGoal(orders, book, cap, Advanced(orders, book[p.i], p, decision.value), goal);
      }
    }
  }

  /** Run from the start, the loop arrives at the planned matches. */
  lemma LoopPlans(orders: seq<Order>, id: OrderId, book: seq<OrderId>, p: Position)
    requires id < |orders| && PricesNonNegative(orders)
    requires book == Book(orders, orders[id], |orders|)
    requires p == Position(0, orders[id].filled, [], orders[id].quantity, 0.0)
    ensures InBudget(p, BudgetOf(orders[id]))
    ensures LoopFrom(orders, book, BudgetOf(orders[id]), p)
         == Goal(Fills(orders, id), Unfilled(orders, id), Spent(orders, id))
  {
    PlanAffordable(orders, id, book);
    assert book[0..] == book;
    LoopReachesGoal(orders, book, BudgetOf(orders[id]), p,
                    Goal(Fills(orders, id), Unfilled(orders, id), Spent(orders, id)));
  }

  /** The body of the loop up to its fill: stop, skip the entry, or take a quantity from it. */
  method TakeFrom(maker: Order, cap: Option<real>, remaining: real, totalSpent: real) returns (decision: Option<real>)
    requires maker.price >= 0.0 && remaining >= 0.0 && (cap.Some? ==> totalSpent <= cap.value)
    ensures decision == Decision(maker, cap, remaining, totalSpent)
    ensures Takes(maker, cap, remaining, totalSpent, decision)
  {
    DecisionTakes(maker, cap, remaining, totalSpent);
    if remaining == 0.0 {
      return None;
    }
    var makerRemaining := maker.quantity - maker.filled;
    if makerRemaining <= 0.0 {
      return Some(0.0);
    }
    var matchable := Min(remaining, makerRemaining);
    if cap.Some? && totalSpent + Pay(matchable, maker.price) > cap.value {
      PartOfBudget(cap.value - totalSpent, maker.price, matchable);
      matchable := (cap.value - totalSpent) / maker.price;
      if matchable <= 0.0 {
        return None;
      }
    }
    return Some(matchable);
  }

  /** The matching loop: it walks the book, and its accumulators end up at the planned matches, the unfilled quantity
      and, for a market buy, the money spent. */
  method PlanMatches(orders: seq<Order>, id: OrderId, book: seq<OrderId>)
    returns (fills: seq<Fill>, remaining: real, totalSpent: real)
    requires id < |orders| && PricesNonNegative(orders)
    requires book == Book(orders, orders[id], |orders|)
    ensures fills == Fills(orders, id)
    ensures remaining == Unfilled(orders, id)
    ensures BudgetOf(orders[id]).Some? ==> totalSpent == Spent(orders, id)
  {
    var o := orders[id];
    var cap := BudgetOf(o);
    var filled := o.filled;
    fills, remaining, totalSpent := [], o.quantity, 0.0;
    ghost var p := Position(0, filled, fills, remaining, totalSpent);
    LoopPlans(orders, id, book, p);
    ghost var goal := LoopFrom(orders, book, cap, p);
    var i := 0;
    while i < |book|
      invariant i == p.i <= |book| && filled == p.filled && fills == p.fills && remaining == p.remaining
      invariant InBudget(p, cap)
      invariant cap.Some? ==> totalSpent == p.cost
      invariant LoopFrom(orders, book, cap, p) == goal
    {
      var maker := orders[book[i]];
      var decision := TakeFrom(maker, cap, remaining, totalSpent);
      if decision.None? {
        break;
      }
      var matchable := decision.value;
      p := Advanced(orders, book[i], p, matchable);
      if matchable > 0.0 {
        fills := fills + [FillAt(maker, book[i], matchable, filled)];
      }
      remaining := remaining - matchable;
      filled := filled + matchable;
      if cap.Some? {
        totalSpent := totalSpent + Pay(matchable, maker.price);
      }
      i := i + 1;
    }
  }

  // ----- The stored tables and the services over them

  /** One trade as the market data service is told of it. */
  datatype Report = Report(asset: AssetId, price: real, quantity: real, side: Side)

  function ReportsOf(taker: Order, fills: seq<Fill>): seq<Report> {
    seq(|fills|, n requires 0 <= n < |fills| => Report(taker.asset, fills[n].price, fills[n].quantity, taker.side))
  }

  /** The token prices once some matches have been written: each match writes its own price. */
  function Quoted(prices: map<AssetId, real>, asset: AssetId, fills: seq<Fill>): map<AssetId, real> {
    if fills == [] then prices else prices[asset := fills[|fills| - 1].price]
  }

  predicate IsReport(report: Report, t: Trade, side: Side) {
    report == Report(t.asset, t.price, t.quantity, side)
  }

  lemma HeadIsReported(s: State, id: OrderId, fills: seq<Fill>, mid: State)
    requires id < |s.orders| && MakersWithin(fills, |s.orders|) && fills != [] && ApplyFill(s, id, fills[0]) == Ok(mid)
    ensures id < |mid.orders| == |s.orders|
    ensures mid.orders[id].asset == s.orders[id].asset && mid.orders[id].side == s.orders[id].side
    ensures |mid.trades| == |s.trades| + 1 && mid.trades[..|s.trades|] == s.trades
    ensures IsReport(ReportsOf(s.orders[id], fills)[0], mid.trades[|s.trades|], s.orders[id].side)
  {
  }

  /** The trades table has grown by one trade for each match, as reported. */
  ghost predicate GrownBy(before: seq<Trade>, after: seq<Trade>, taker: Order, fills: seq<Fill>) {
    && |after| == |before| + |fills| && after[..|before|] == before
    && forall n :: 0 <= n < |fills| ==> IsReport(ReportsOf(taker, fills)[n], after[|before| + n], taker.side)
  }

  lemma {:induction false} ApplyFillsTrades(s: State, id: OrderId, fills: seq<Fill>, after: State)
    requires id < |s.orders| && MakersWithin(fills, |s.orders|) && ApplyFills(s, id, fills) == Ok(after)
    ensures GrownBy(s.trades, after.trades, s.orders[id], fills)
    decreases |fills|
  {
    if fills != [] {
      HeadAndTail(s, id, fills);
      var mid := ApplyFill(s, id, fills[0]).value;
      HeadIsReported(s, id, fills, mid);
      ApplyFillsTrades(mid, id, fills[1..], after);
      LaterReports(s.orders[id], mid.orders[id], fills, s.trades, mid.trades, after.trades);
    }
  }

  lemma LaterReports(
    taker: Order, later: Order, fills: seq<Fill>, before: seq<Trade>, mid: seq<Trade>, after: seq<Trade>)
    requires later.asset == taker.asset && later.side == taker.side && fills != []
    requires |mid| == |before| + 1 && mid[..|before|] == before
    requires IsReport(ReportsOf(taker, fills)[0], mid[|before|], taker.side)
    requires GrownBy(mid, after, later, fills[1..])
    ensures GrownBy(before, after, taker, fills)
  {
    assert after[..|before|] == mid[..|before|];
    forall n | 0 <= n < |fills|
      ensures IsReport(ReportsOf(taker, fills)[n], after[|before| + n], taker.side)
    {
      if n == 0 {
        assert mid[|before|] == after[..|mid|][|before|];
      } else {
        assert ReportsOf(later, fills[1..])[n - 1] == ReportsOf(taker, fills)[n];
        assert IsReport(ReportsOf(later, fills[1..])[n - 1], after[|mid| + (n - 1)], later.side);
      }
    }
  }

  /** The market data service is told of exactly the trades the transaction wrote, in their order. */
  lemma TradesAreReported(s: State, id: OrderId)
    requires PricesNonNegative(s.orders) && id < |s.orders| && s.orders[id].status == Open && MatchOrder(s, id).Ok?
    ensures var trades, reports := MatchOrder(s, id).value.trades, ReportsOf(s.orders[id], Fills(s.orders, id));
            && |trades| == |s.trades| + |reports| && trades[..|s.trades|] == s.trades
            && forall n :: 0 <= n < |reports| ==> IsReport(reports[n], trades[|s.trades| + n], s.orders[id].side)
  {
    FillsInRange(s.orders, PlanFor(s.orders, id).book, PlanFor(s.orders, id).alloc, s.orders[id].filled);
    MatchOrderUnfolds(s, id, ApplyFills(s, id, Fills(s.orders, id)));
    ApplyFillsTrades(s, id, Fills(s.orders, id), ApplyFills(s, id, Fills(s.orders, id)).value);
  }

  /** The token price of the order's asset is that of the last trade the job has written; without a new trade, and for
      other assets, prices stay. */
  lemma QuotedIsLastPrice(s: State, id: OrderId, prices: map<AssetId, real>)
    requires PricesNonNegative(s.orders)
    requires id < |s.orders| && s.orders[id].status == Open && MatchOrder(s, id).Ok?
    ensures var after := MatchOrder(s, id).value.trades;
            var quoted := Quoted(prices, s.orders[id].asset, Fills(s.orders, id));
            if |after| == |s.trades| then quoted == prices
            else && |after| > |s.trades|
                 && quoted == prices[s.orders[id].asset := after[|after| - 1].price]
  {
    var o, fills, after := s.orders[id], Fills(s.orders, id), MatchOrder(s, id).value.trades;
    TradesAreReported(s, id);
    if fills != [] {
      var n := |fills| - 1;
      assert IsReport(ReportsOf(o, fills)[n], after[|s.trades| + n], o.side);
    }
  }

  class OrderServices {
    const balances: BalancesService
    const ledger: TradingLedgerService
    var orders: seq<Order>
    var queue: seq<OrderId>
    var trades: seq<Trade>
    var released: seq<Release>
    var tokenPrice: map<AssetId, real>
    var reported: seq<Report>

    ghost predicate Valid()
      reads this
    {
      ledger.balances == balances && PricesNonNegative(orders)
    }

    ghost function Tables(): State
      reads this, balances
    {
      State(balances.rows, orders, queue, trades, released)
    }

    constructor (balances: BalancesService, ledger: TradingLedgerService)
      requires ledger.balances == balances
      ensures Valid() && this.balances == balances && fresh(this)
      ensures Tables() == State(balances.rows, [], [], [], [])
    {
      this.balances, this.ledger := balances, ledger;
      orders, queue, trades, released := [], [], [], [];
      tokenPrice, reported := map[], [];
    }

    /** Locks the funds, enters the order and queues its matching job. */
    method CreateOrder(user: UserId, req: Request, listing: Option<Listing>) returns (r: Result<(), OrderError>)
      requires Valid()
      modifies this, balances
      ensures Valid()
      ensures match Exchange.CreateOrder(old(Tables()), user, req, listing)
              case Ok(after) => r.Ok? && Tables() == after
              case Err(e) => r == Err(e) && Tables() == old(Tables())
      ensures Safe(old(Tables())) ==> Safe(Tables())
    {
      ghost var before := Tables();
      if Safe(before) && Exchange.CreateOrder(before, user, req, listing).Ok? {
        CreateSafe(before, user, req, listing);
      }
      if !WellFormed(req) {
        return Err(BadRequest);
      }
      if KeyUsed(orders, req.key) {
        return Ok(());
      }
      if listing.None? {
        return Err(AssetNotFound);
      }
      if !listing.value.isActive || !listing.value.isOpen {
        return Err(AssetNotTradable);
      }
      var price := OrderPrice(req, listing.value);
      if price.Err? {
        return Err(price.error);
      }
      PlacedPrice(req, listing.value);
      var locked := ledger.LockFunds(user, req.side, req.asset, req.quantity, price.value);
      if locked.Err? {
        return Err(Ledger(locked.error));
      }
      var id := |orders|;
      orders := orders + [Order(user, req.asset, req.side, req.kind, price.value, req.quantity, 0.0, Open, req.key)];
      queue := queue + [id];
      return Ok(());
    }

    method CancelOrder(user: UserId, id: OrderId) returns (r: Result<(), OrderError>)
      requires Valid()
      modifies this`orders, balances
      ensures Valid()
      ensures match Exchange.CancelOrder(old(Tables()), user, id)
              case Ok(after) => r.Ok? && Tables() == after
              case Err(e) => r == Err(e) && Tables() == old(Tables())
    {
      if id >= |orders| {
        return Err(OrderNotFound);
      }
      var o := orders[id];
      if o.user != user {
        return Err(NotOwner);
      }
      if !Live(o) {
        return Err(NotCancellable);
      }
      var unlocked := ledger.UnlockRemainder(user, o.side, o.asset, Remaining(o), o.price);
      if unlocked.Err? {
        return Err(Ledger(unlocked.error));
      }
      orders := orders[id := o.(status := Cancelled)];
      return Ok(());
    }

    /** Cancels each order by itself; a failure does not stop the rest. */
    method BulkCancelOrders(user: UserId, ids: seq<OrderId>)
      returns (results: seq<Option<OrderError>>, successCount: nat, errorCount: nat)
      requires Valid()
      modifies this`orders, balances
      ensures Valid()
      ensures Cancelling(Tables(), results) == CancelAll(old(Tables()), user, ids)
      ensures Safe(old(Tables())) ==> BulkCancellation.Cancelled(old(Tables()), user, ids, Tables(), results)
      ensures successCount == CountNone(results) && errorCount == |ids| - successCount
    {
      results := [];
      var n := 0;
      while n < |ids|
        invariant 0 <= n <= |ids| && Valid() && |results| == n
        invariant Cancelling(Tables(), results) == CancelAll(old(Tables()), user, ids[..n])
      {
        var r := CancelOrder(user, ids[n]);
        results := results + [if r.Ok? then None else Some(r.error)];
        assert ids[..n + 1][..n] == ids[..n];
        n := n + 1;
      }
      assert ids[..n] == ids;
      if Safe(old(Tables())) {
        BulkCancelEffect(old(Tables()), user, ids);
      }
      successCount := CountSuccesses(results);
      errorCount := |results| - successCount;
    }

    method CountSuccesses(results: seq<Option<OrderError>>) returns (count: nat)
      ensures count == CountNone(results) <= |results|
    {
      count := 0;
      var n := 0;
      while n < |results|
        invariant 0 <= n <= |results| && count == CountNone(results[..n]) <= n
      {
        if results[n].None? {
          count := count + 1;
        }
        assert results[..n + 1][..n] == results[..n];
        n := n + 1;
      }
      assert results[..n] == results;
    }

    /** The writes of one match, inside the matching transaction. */
    method ExecuteMatch(id: OrderId, f: Fill) returns (r: Result<(), LedgerError>)
      requires ledger.balances == balances && id < |orders| && f.maker < |orders|
      modifies this`orders, this`trades, this`tokenPrice, balances
      ensures |orders| == |old(orders)|
      ensures tokenPrice == old(tokenPrice)[old(orders)[id].asset := f.price]
      ensures match ApplyFill(old(Tables()), id, f)
              case Ok(after) => r.Ok? && Tables() == after
              case Err(e) => r == Err(e)
    {
      var taker, maker := orders[id], orders[f.maker];
      orders := orders[id := taker.(filled := f.takerFilled, status := StatusAfter(f.takerFilled, taker.quantity))];
      orders := orders[f.maker := maker.(filled := f.makerFilled,
                                         status := StatusAfter(f.makerFilled, maker.quantity))];
      trades := trades + [MatchedTrade(taker, id, maker, f)];
      tokenPrice := tokenPrice[taker.asset := f.price];
      r := SettleFill(taker, maker, f);
    }

    /** The ledger side of one match, with the price improvement of a limit buy handed back. */
    method SettleFill(taker: Order, maker: Order, f: Fill) returns (r: Result<(), LedgerError>)
      requires ledger.balances == balances
      modifies balances
      ensures match FillLedger(old(balances.rows), taker, maker, f)
              case Ok(after) => r.Ok? && balances.rows == after
              case Err(e) => r == Err(e)
    {
      r := ledger.Settle(BuyerOf(taker, maker), SellerOf(taker, maker), taker.asset, f.quantity, f.price);
      if r.Ok? && taker.kind.Limit? && taker.side.Buy? && f.price < taker.price {
        r := ledger.Refund(taker.user, Pay(f.quantity, taker.price - f.price));
      }
    }

    /** The last write of a market order's transaction. */
    method FinishMarket(id: OrderId, remaining: real, spent: real) returns (r: Result<(), LedgerError>)
      requires ledger.balances == balances && id < |orders|
      modifies this`orders, balances
      ensures match CloseMarket(old(Tables()), id, remaining, spent)
              case Ok(after) => r.Ok? && Tables() == after
              case Err(e) => r == Err(e)
    {
      var o := orders[id];
      r := Ok(());
      if o.kind.Market? && remaining > 0.0 {
        orders := orders[id := o.(status := Cancelled)];
        if o.side.Buy? {
          r := ledger.Refund(o.user, Pay(o.quantity, o.price) - spent);
        } else {
          r := ledger.UnlockRemainder(o.user, o.side, o.asset, remaining, 0.0);
        }
      } else if o.kind.Market? && o.side.Buy? {
        r := ledger.Refund(o.user, Pay(o.quantity, o.price) - spent);
      }
    }

    /** All the matches of a job, stopping at the first write that is refused. */
    method ExecuteMatches(id: OrderId, fills: seq<Fill>) returns (r: Result<(), LedgerError>)
      requires ledger.balances == balances && id < |orders| && MakersWithin(fills, |orders|)
      modifies this`orders, this`trades, this`tokenPrice, balances
      ensures |orders| == |old(orders)|
      ensures r.Ok? ==> tokenPrice == Quoted(old(tokenPrice), old(orders)[id].asset, fills)
      ensures match ApplyFills(old(Tables()), id, fills)
              case Ok(after) => r.Ok? && Tables() == after
              case Err(e) => r == Err(e)
    {
      ghost var before, asset := Tables(), orders[id].asset;
      r := Ok(());
      var n := 0;
      while n < |fills| && r.Ok?
        invariant 0 <= n <= |fills| && |orders| == |before.orders|
        invariant r.Ok? ==> ApplyFills(before, id, fills) == ApplyFills(Tables(), id, fills[n..])
        invariant r.Err? ==> ApplyFills(before, id, fills) == Err(r.error)
        invariant r.Ok? ==> tokenPrice == Quoted(old(tokenPrice), asset, fills[..n]) && orders[id].asset == asset
        decreases |fills| - n, r.Ok?
      {
        ApplyFillsNext(Tables(), id, fills, n);
        QuotedNext(old(tokenPrice), asset, fills, n);
        r := ExecuteMatch(id, fills[n]);
        if r.Ok? {
          n := n + 1;
        }
      }
      assert r.Ok? ==> fills[..n] == fills;
    }

    /** Plans the matches of an open order and writes them in one transaction, or restores everything if any write is
        refused; once they are committed the market data service is told of them. */
    method MatchOrder(id: OrderId) returns (r: Result<nat, LedgerError>)
      requires Valid()
      modifies this`orders, this`trades, this`tokenPrice, this`reported, balances
      ensures Valid()
      ensures match Exchange.MatchOrder(old(Tables()), id)
              case Ok(after) => r.Ok? && Tables() == after
              case Err(e) => r == Err(e) && Tables() == old(Tables())
      ensures if id < |old(orders)| && old(orders)[id].status == Open && r.Ok?
              then var o, fills := old(orders)[id], Fills(old(orders), id);
                   && r.value == |fills|
                   && tokenPrice == Quoted(old(tokenPrice), o.asset, fills)
                   && reported == old(reported) + ReportsOf(o, fills)
              else tokenPrice == old(tokenPrice) && reported == old(reported)
    {
      if id >= |orders| || orders[id].status != Open {
        return Ok(0);
      }
      var taker := orders[id];
      var fills, remaining, spent := PlanMatches(orders, id, Book(orders, taker, |orders|));
      var outcome := Commit(id, fills, remaining, spent);
      if outcome.Err? {
        return Err(outcome.error);
      }
      ReportTrades(taker, fills);
      var matched: nat := |fills|;
      return Ok(matched);
    }

    /** The transaction of a job: all its writes, or none. */
    method Commit(id: OrderId, fills: seq<Fill>, remaining: real, spent: real) returns (r: Result<(), LedgerError>)
      requires Valid() && id < |orders| && orders[id].status == Open
      requires fills == Fills(orders, id) && remaining == Unfilled(orders, id)
      requires BudgetOf(orders[id]).Some? ==> spent == Spent(orders, id)
      modifies this`orders, this`trades, this`tokenPrice, balances
      ensures Valid()
      ensures match Exchange.MatchOrder(old(Tables()), id)
              case Ok(after) => r.Ok? && Tables() == after
              case Err(e) => r == Err(e) && Tables() == old(Tables())
      ensures tokenPrice == if r.Ok? then Quoted(old(tokenPrice), old(orders)[id].asset, fills) else old(tokenPrice)
    {
      ghost var before := Tables();
      var savedRows, savedOrders, savedTrades, savedPrices := balances.rows, orders, trades, tokenPrice;
      FillsInRange(orders, PlanFor(orders, id).book, PlanFor(orders, id).alloc, orders[id].filled);
      MatchOrderUnfolds(before, id, ApplyFills(before, id, fills));
      MatchOrderKeepsPrices(before, id);
      r := ExecuteMatches(id, fills);
      if r.Ok? {
        ApplyFillsKeepsBudget(before, id, fills);
        r := FinishMarket(id, remaining, spent);
      }
      if r.Err? {
        balances.rows, orders, trades, tokenPrice := savedRows, savedOrders, savedTrades, savedPrices;
      }
    }

    /** One call of the market data service for each match. */
    method ReportTrades(taker: Order, fills: seq<Fill>)
      modifies this`reported
      ensures reported == old(reported) + ReportsOf(taker, fills)
    {
      ghost var all := ReportsOf(taker, fills);
      var n := 0;
      while n < |fills|
        invariant 0 <= n <= |fills| && reported == old(reported) + all[..n]
      {
        reported := reported + [Report(taker.asset, fills[n].price, fills[n].quantity, taker.side)];
        n := n + 1;
      }
      assert all[..n] == all;
    }

    /** The worker takes a queued job; a failed one stays queued until its last attempt. */
    method RunJob(at: nat, lastAttempt: bool)
      requires Valid()
      modifies this, balances
      ensures Valid()
      ensures Tables() == Exchange.RunJob(old(Tables()), at, lastAttempt)
      ensures Safe(old(Tables())) ==> Safe(Tables())
    {
      if Safe(Tables()) {
        RunJobSafe(Tables(), at, lastAttempt);
      }
      if at >= |queue| {
        return;
      }
      var outcome := MatchOrder(queue[at]);
      if outcome.Ok? || lastAttempt {
        queue := queue[..at] + queue[at + 1..];
      }
    }

    // ----- Settlement

    /** The accumulator of the grouping: a trade joins its asset's group, or opens one. */
    method GroupTrades(picked: seq<TradeId>) returns (groups: seq<Group>)
      requires Within(picked, |trades|)
      ensures groups == GroupByAsset(trades, picked)
    {
      groups := [];
      var n := 0;
      while n < |picked|
        invariant 0 <= n <= |picked|
        invariant groups == GroupByAsset(trades, picked[..n])
      {
        var asset := trades[picked[n]].asset;
        var i := 0;
        while i < |groups| && groups[i].asset != asset
          invariant 0 <= i <= |groups|
          invariant forall j :: 0 <= j < i ==> groups[j].asset != asset
        {
          i := i + 1;
        }
        AddToGroupAt(groups, asset, picked[n], i);
        assert picked[..n + 1][..n] == picked[..n];
        if i < |groups| {
          groups := groups[..i] + [groups[i].(trades := groups[i].trades + [picked[n]])] + groups[i + 1..];
        } else {
          groups := groups + [Group(asset, [picked[n]])];
        }
        n := n + 1;
      }
      assert picked[..n] == picked;
    }

    /** The unlock loop: two transfers a trade, each of its own, stopping at the first that is refused. */
    method UnlockFunds(ids: seq<TradeId>) returns (done: bool)
      requires Within(ids, |trades|)
      modifies this`released, balances
      ensures var unlocking := UnlockTrades(old(balances.rows), old(released), trades, ids);
              balances.rows == unlocking.rows && released == unlocking.released && done == unlocking.done
    {
      ghost var goal := UnlockTrades(balances.rows, released, trades, ids);
      var n := 0;
      while n < |ids|
        invariant 0 <= n <= |ids|
        invariant UnlockTrades(balances.rows, released, trades, ids[n..]) == goal
      {
        assert ids[n..][1..] == ids[n + 1..];
        var t := trades[ids[n]];
        var quote := Pay(t.quantity, t.price);
        var first := balances.Transfer(Holding(t.buyer, t.asset), t.quantity, LockedToAvailable);
        if first.Err? {
          return false;
        }
        released := released + [Release(ids[n], Holding(t.buyer, t.asset), t.quantity)];
        var second := balances.Transfer(Cash(t.seller), quote, LockedToAvailable);
        if second.Err? {
          return false;
        }
        released := released + [Release(ids[n], Cash(t.seller), quote)];
        n := n + 1;
      }
      return true;
    }

    method SettleAsset(tick: Tick, group: Group)
      requires Within(group.trades, |trades|)
      modifies this`trades, this`released, balances
      ensures Tables() == SettleGroup(old(Tables()), tick, group)
    {
      if group.asset !in tick.contracts {
        return;
      }
      var eligible := WithWallets(trades, group.trades, tick.wallets, true);
      trades := Mark(trades, WithWallets(trades, group.trades, tick.wallets, false), Declined);
      if eligible == [] {
        return;
      }
      trades := Mark(trades, eligible, Processing);
      var done := group.asset in tick.succeeds;
      if done {
        done := UnlockFunds(eligible);
      }
      trades := if done then Mark(trades, eligible, Settled) else Mark(trades, group.trades, Failed);
    }

    method SettleAssets(tick: Tick, groups: seq<Group>)
      requires GroupsWithin(groups, |trades|)
      modifies this`trades, this`released, balances
      ensures Tables() == SettleGroups(old(Tables()), tick, groups)
    {
      ghost var goal := SettleGroups(Tables(), tick, groups);
      var n := 0;
      while n < |groups|
        invariant 0 <= n <= |groups| && GroupsWithin(groups, |trades|)
        invariant SettleGroups(Tables(), tick, groups[n..]) == goal
      {
        SettleGroupsNext(Tables(), tick, groups, n);
        SettleAsset(tick, groups[n]);
        n := n + 1;
      }
    }

    /** One tick of the cron over the trades its query picked. */
    method ProcessSettlements(tick: Tick)
      requires Valid() && Picks(trades, tick)
      modifies this`trades, this`released, balances
      ensures Valid()
      ensures Tables() == SettleTick(old(Tables()), tick)
      ensures Safe(old(Tables())) ==> Safe(Tables())
    {
      if Safe(Tables()) {
        SettleTickSafe(Tables(), tick);
      }
      GroupMembers(trades, tick.picked);
      var groups := GroupTrades(tick.picked);
      SettleAssets(tick, groups);
    }
  }

  // ----- What the methods rely on

  /** One more match of a job. */
  lemma ApplyFillsNext(s: State, id: OrderId, fills: seq<Fill>, n: nat)
    requires n < |fills| && id < |s.orders| && MakersWithin(fills, |s.orders|)
    ensures var next := ApplyFill(s, id, fills[n]);
            && (next.Err? ==> ApplyFills(s, id, fills[n..]) == Err(next.error))
            && (next.Ok? ==>
                  && |next.value.orders| == |s.orders| && next.value.orders[id].asset == s.orders[id].asset
                  && ApplyFills(s, id, fills[n..]) == ApplyFills(next.value, id, fills[n + 1..]))
  {
    assert fills[n..][0] == fills[n] && fills[n..][1..] == fills[n + 1..];
  }

  lemma QuotedNext(prices: map<AssetId, real>, asset: AssetId, fills: seq<Fill>, n: nat)
    requires n < |fills|
    ensures Quoted(prices, asset, fills[..n + 1]) == Quoted(prices, asset, fills[..n])[asset := fills[n].price]
  {
  }

  /** One more group of a tick. */
  lemma SettleGroupsNext(s: State, tick: Tick, groups: seq<Group>, n: nat)
    requires n < |groups| && GroupsWithin(groups, |s.trades|)
    ensures SettleGroups(s, tick, groups[n..]) == SettleGroups(SettleGroup(s, tick, groups[n]), tick, groups[n + 1..])
  {
    assert groups[n..][1..] == groups[n + 1..];
  }

  lemma {:induction false} AddToGroupAt(groups: seq<Group>, asset: AssetId, t: TradeId, i: nat)
    requires i <= |groups| && forall j :: 0 <= j < i ==> groups[j].asset != asset
    requires i < |groups| ==> groups[i].asset == asset
    ensures AddToGroup(groups, asset, t)
         == if i < |groups| then groups[..i] + [groups[i].(trades := groups[i].trades + [t])] + groups[i + 1..]
            else groups + [Group(asset, [t])]
  {
    if i > 0 {
      AddToGroupAt(groups[1..], asset, t, i - 1);
    }
  }

  lemma {:induction false} ApplyFillsKeepsTerms(s: State, id: OrderId, fills: seq<Fill>)
    requires id < |s.orders| && MakersWithin(fills, |s.orders|) && ApplyFills(s, id, fills).Ok?
    ensures var after := ApplyFills(s, id, fills).value.orders;
            && |after| == |s.orders|
            && forall i :: 0 <= i < |after| ==>
                 after[i] == s.orders[i].(filled := after[i].filled, status := after[i].status)
    decreases |fills|
  {
    if fills != [] {
      ApplyFillsKeepsTerms(ApplyFill(s, id, fills[0]).value, id, fills[1..]);
    }
  }

  lemma ApplyFillsKeepsBudget(s: State, id: OrderId, fills: seq<Fill>)
    requires id < |s.orders| && MakersWithin(fills, |s.orders|) && ApplyFills(s, id, fills).Ok?
    ensures var after := ApplyFills(s, id, fills).value.orders;
            id < |after| && BudgetOf(after[id]) == BudgetOf(s.orders[id])
  {
    ApplyFillsKeepsTerms(s, id, fills);
  }

  lemma MatchOrderKeepsPrices(s: State, id: OrderId)
    requires PricesNonNegative(s.orders) && id < |s.orders| && s.orders[id].status == Open
    requires MakersWithin(Fills(s.orders, id), |s.orders|)
    ensures MatchOrder(s, id).Ok? ==> PricesNonNegative(MatchOrder(s, id).value.orders)
  {
    MatchOrderUnfolds(s, id, ApplyFills(s, id, Fills(s.orders, id)));
    if ApplyFills(s, id, Fills(s.orders, id)).Ok? {
      ApplyFillsKeepsTerms(s, id, Fills(s.orders, id));
    }
  }
}
