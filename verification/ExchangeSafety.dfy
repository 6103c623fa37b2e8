/**
 What every step of the exchange keeps: locked pockets are exactly what live orders and unsettled trades
 lay claim to, no pocket is negative, money is conserved, and fills add up.
 */
module ExchangeSafety {
  import opened Common
  import opened Sums
  import opened Balances
  import opened Allocation
  import opened Exchange

  // ----- The invariant

  function CollateralOf(o: Order): Account {
    Collateral(o.user, o.side, o.asset)
  }

  /** An amount that concerns one account only. */
  function At(k: Account, account: Account, amount: real): real {
    if k == account then amount else 0.0
  }

  /** What an order still claims of an account's locked pocket. */
  function OrderLock(k: Account): Order -> real {
    (o: Order) => if Live(o) && CollateralOf(o) == k then LockOf(o.side, Remaining(o), o.price) else 0.0
  }

  /** What a trade claims until it is settled: the buyer's quantity and the seller's proceeds. */
  function TradeLock(k: Account): Trade -> real {
    (t: Trade) =>
      if t.status == Settled then 0.0
      else At(k, Holding(t.buyer, t.asset), t.quantity) + At(k, Cash(t.seller), Pay(t.quantity, t.price))
  }

  function TradedBy(id: OrderId): Trade -> real {
    (t: Trade) => if id == t.buyOrder || id == t.sellOrder then t.quantity else 0.0
  }

  predicate OrderOk(o: Order) {
    && o.quantity > 0.0
    && o.price >= 0.0
    && (o.side.Buy? ==> o.price > 0.0)
    && 0.0 <= o.filled <= o.quantity
    && o.status !in {Pending, Rejected}
    && (o.status == Open ==> o.filled == 0.0)
    && (o.status == PartiallyFilled ==> o.filled > 0.0)
    && (o.status == Filled <==> o.filled == o.quantity)
  }

  predicate TradeOk(t: Trade, orderCount: nat) {
    && t.quantity > 0.0
    && t.price > 0.0
    && t.buyer != t.seller
    && t.buyOrder < orderCount
    && t.sellOrder < orderCount
    && t.buyOrder != t.sellOrder
  }

  function ReleasesOf(released: seq<Release>, t: TradeId): seq<Release> {
    if released == [] then []
    else
      var last := released[|released| - 1];
      ReleasesOf(released[..|released| - 1], t) + if last.trade == t then [last] else []
  }

  /** The two unlocks a settled trade is owed. */
  function Owed(t: TradeId, trade: Trade): seq<Release> {
    [Release(t, Holding(trade.buyer, trade.asset), trade.quantity),
     Release(t, Cash(trade.seller), Pay(trade.quantity, trade.price))]
  }

  /** A settled trade has been unlocked exactly once, any other trade never. */
  ghost predicate SettledOnce(s: State) {
    && (forall i :: 0 <= i < |s.released| ==> s.released[i].trade < |s.trades|)
    && forall t :: 0 <= t < |s.trades| ==>
         ReleasesOf(s.released, t) == if s.trades[t].status == Settled then Owed(t, s.trades[t]) else []
  }

  ghost predicate FillsAddUp(s: State) {
    forall i :: 0 <= i < |s.orders| ==> s.orders[i].filled == Sum(s.trades, TradedBy(i))
  }

  /** Everything but lock coverage; it also holds between the writes of a matching transaction. */
  ghost predicate Sound(s: State) {
    && NonNegative(s.rows)
    && (forall i :: 0 <= i < |s.orders| ==> OrderOk(s.orders[i]))
    && (forall t :: 0 <= t < |s.trades| ==> TradeOk(s.trades[t], |s.orders|))
    && FillsAddUp(s)
    && Within(s.queue, |s.orders|)
    && SettledOnce(s)
  }

  ghost function Claims(s: State, k: Account): real {
    Sum(s.orders, OrderLock(k)) + Sum(s.trades, TradeLock(k))
  }

  /** Every locked pocket equals its claims, but for an extra amount at one account: the part of a market buy's
      budget that its planned fills did not spend at the order's own price. */
  ghost predicate CoveredBut(s: State, account: Account, extra: real) {
    forall k :: Locked(s.rows, k) == Claims(s, k) + At(k, account, extra)
  }

  ghost predicate Covered(s: State) {
    forall k :: Locked(s.rows, k) == Claims(s, k)
  }

  ghost predicate Safe(s: State) {
    Sound(s) && Covered(s)
  }

  ghost predicate SameTotals(before: Rows, after: Rows) {
    forall a :: Total(after, a) == Total(before, a)
  }

  // ----- Arithmetic of prices

  lemma PayAdds(q: real, r: real, price: real)
    ensures Pay(q + r, price) == Pay(q, price) + Pay(r, price)
  {
  }

  lemma PaySplits(q: real, p: real, price: real)
    ensures Pay(q, price) == Pay(q, p) + Pay(q, price - p)
  {
  }

  lemma PayMonotone(q: real, r: real, p: real, price: real)
    requires 0.0 <= q <= r && 0.0 <= p <= price
    ensures 0.0 <= Pay(q, p) <= Pay(r, price)
  {
    assert 0.0 <= Pay(q, p) <= Pay(q, price) <= Pay(r, price);
  }

  lemma PayPositive(q: real, price: real)
    requires q > 0.0 && price >= 0.0
    ensures Pay(q, price) > 0.0 <==> price > 0.0
    ensures Pay(q, price) >= 0.0
  {
  }

  // ----- The ledger side of a match

  lemma SettleMatchEffect(rows: Rows, buyer: UserId, seller: UserId, asset: AssetId, quantity: real, price: real)
    requires NonNegative(rows) && buyer != seller
    requires quantity > 0.0 && price >= 0.0
    requires Pay(quantity, price) <= Locked(rows, Cash(buyer)) && quantity <= Locked(rows, Holding(seller, asset))
    ensures SettleMatch(rows, buyer, seller, asset, quantity, price).Ok? <==> price > 0.0
    ensures price > 0.0 ==>
              var after := SettleMatch(rows, buyer, seller, asset, quantity, price).value;
              var quote := Pay(quantity, price);
              && NonNegative(after)
              && SameTotals(rows, after)
              && forall k :: Locked(after, k) == Locked(rows, k)
                           - At(k, Cash(buyer), quote) + At(k, Holding(buyer, asset), quantity)
                           - At(k, Holding(seller, asset), quantity) + At(k, Cash(seller), quote)
  {
    var quote := Pay(quantity, price);
    PayPositive(quantity, price);
    LockedChangeEffect(rows, Cash(buyer), quote, Debit);
    if price > 0.0 {
      var rows1 := Updated(rows, Cash(buyer), quote, Debit, false, true).value;
      LockedChangeEffect(rows1, Holding(buyer, asset), quantity, Credit);
      var rows2 := Updated(rows1, Holding(buyer, asset), quantity, Credit, false, true).value;
      LockedChangeEffect(rows2, Holding(seller, asset), quantity, Debit);
      var rows3 := Updated(rows2, Holding(seller, asset), quantity, Debit, false, true).value;
      LockedChangeEffect(rows3, Cash(seller), quote, Credit);
    }
  }

  /** What a match takes out of the buyer's locked cash, refund included. */
  function Reserve(taker: Order, f: Fill): real {
    if taker.kind.Limit? && taker.side.Buy? then Pay(f.quantity, taker.price) else Pay(f.quantity, f.price)
  }

  /** How a match moves an account's locked pocket. */
  function LedgerChange(taker: Order, maker: Order, f: Fill, k: Account): real {
    var buyer, seller := BuyerOf(taker, maker), SellerOf(taker, maker);
    - At(k, Cash(buyer), Reserve(taker, f)) + At(k, Holding(buyer, taker.asset), f.quantity)
    - At(k, Holding(seller, taker.asset), f.quantity) + At(k, Cash(seller), Pay(f.quantity, f.price))
  }

  lemma FillLedgerEffect(rows: Rows, taker: Order, maker: Order, f: Fill)
    requires NonNegative(rows) && Eligible(taker, maker)
    requires f.quantity > 0.0 && f.price >= 0.0 && f.price == maker.price
    requires Reserve(taker, f) <= Locked(rows, Cash(BuyerOf(taker, maker)))
    requires f.quantity <= Locked(rows, Holding(SellerOf(taker, maker), taker.asset))
    ensures FillLedger(rows, taker, maker, f).Ok? <==> f.price > 0.0
    ensures f.price > 0.0 ==>
              var after := FillLedger(rows, taker, maker, f).value;
              && NonNegative(after)
              && SameTotals(rows, after)
              && forall k :: Locked(after, k) == Locked(rows, k) + LedgerChange(taker, maker, f, k)
  {
    var buyer, seller := BuyerOf(taker, maker), SellerOf(taker, maker);
    var improvement := taker.price - f.price;
    PaySplits(f.quantity, f.price, taker.price);
    if taker.kind.Limit? && taker.side.Buy? {
      PayPositive(f.quantity, improvement);
    }
    SettleMatchEffect(rows, buyer, seller, taker.asset, f.quantity, f.price);
    if f.price > 0.0 {
      var settled := SettleMatch(rows, buyer, seller, taker.asset, f.quantity, f.price).value;
      if taker.kind.Limit? && taker.side.Buy? && f.price < taker.price {
        TransferEffect(settled, Cash(taker.user), Pay(f.quantity, improvement), LockedToAvailable);
      }
    }
  }

  // ----- One match

  function Advance(o: Order, q: real): Order {
    o.(filled := o.filled + q, status := StatusAfter(o.filled + q, o.quantity))
  }

  lemma AdvanceUnlocks(o: Order, q: real, k: Account)
    requires OrderOk(o) && Live(o) && 0.0 < q <= Remaining(o)
    ensures OrderOk(Advance(o, q))
    ensures OrderLock(k)(Advance(o, q)) == OrderLock(k)(o) - At(k, CollateralOf(o), LockOf(o.side, q, o.price))
  {
    PayAdds(q, Remaining(o) - q, o.price);
    assert Pay(0.0, o.price) == 0.0;
  }

  lemma ClaimsNonNegative(s: State, k: Account)
    requires Sound(s)
    ensures forall o :: o in s.orders ==> OrderLock(k)(o) >= 0.0
    ensures forall t :: t in s.trades ==> TradeLock(k)(t) >= 0.0
  {
    forall o | o in s.orders
      ensures OrderLock(k)(o) >= 0.0
    {
      PayMonotone(0.0, Remaining(o), 0.0, o.price);
    }
    forall t | t in s.trades
      ensures TradeLock(k)(t) >= 0.0
    {
      PayPositive(t.quantity, t.price);
    }
  }

  /** An order's own claim is locked, whatever else is. */
  lemma OwnClaimLocked(s: State, id: OrderId)
    requires Sound(s) && id < |s.orders|
    ensures Claims(s, CollateralOf(s.orders[id])) >= OrderLock(CollateralOf(s.orders[id]))(s.orders[id])
  {
    var k := CollateralOf(s.orders[id]);
    ClaimsNonNegative(s, k);
    SumAtLeast(s.orders, id, OrderLock(k));
    SumNonNegative(s.trades, TradeLock(k));
  }

  /** A planned match that fits the tables as they stand: it takes a positive part of what both orders have left, at
      the resting order's price, and a market buy can pay for it. */
  ghost predicate Fits(s: State, id: OrderId, f: Fill, extra: real) {
    && id < |s.orders|
    && f.maker < |s.orders|
    && var taker, maker := s.orders[id], s.orders[f.maker];
      && Live(taker)
      && Eligible(taker, maker)
      && f.price == maker.price
      && 0.0 < f.quantity
      && f.quantity <= Remaining(taker)
      && f.quantity <= Remaining(maker)
      && f.takerFilled == taker.filled + f.quantity
      && f.makerFilled == maker.filled + f.quantity
      && (if BudgetOf(taker).Some? then Pay(f.quantity, f.price) <= Pay(Remaining(taker), taker.price) + extra
          else extra == 0.0)
  }

  function ExtraAfter(taker: Order, extra: real, quantity: real, cost: real): real {
    if BudgetOf(taker).Some? then extra + Pay(quantity, taker.price) - cost else extra
  }

  lemma FitsIsFunded(s: State, id: OrderId, f: Fill, extra: real)
    requires Sound(s) && Fits(s, id, f, extra) && CoveredBut(s, CollateralOf(s.orders[id]), extra)
    ensures var taker, maker := s.orders[id], s.orders[f.maker];
            && Reserve(taker, f) <= Locked(s.rows, Cash(BuyerOf(taker, maker)))
            && f.quantity <= Locked(s.rows, Holding(SellerOf(taker, maker), taker.asset))
  {
    var taker, maker := s.orders[id], s.orders[f.maker];
    OwnClaimLocked(s, id);
    OwnClaimLocked(s, f.maker);
    var buy := if taker.side.Buy? then taker else maker;
    PayMonotone(f.quantity, Remaining(buy), buy.price, buy.price);
  }

  /** How a match moves the claims on an account. */
  function ClaimsChange(taker: Order, maker: Order, f: Fill, k: Account): real {
    - At(k, CollateralOf(taker), LockOf(taker.side, f.quantity, taker.price))
    - At(k, CollateralOf(maker), LockOf(maker.side, f.quantity, maker.price))
    + At(k, Holding(BuyerOf(taker, maker), taker.asset), f.quantity)
    + At(k, Cash(SellerOf(taker, maker)), Pay(f.quantity, f.price))
  }

  /** The tables after a match, whatever became of the balances. */
  function Matched(s: State, id: OrderId, f: Fill, rows: Rows): State
    requires id < |s.orders| && f.maker < |s.orders|
  {
    var taker, maker := s.orders[id], s.orders[f.maker];
    s.(rows := rows,
       orders := s.orders[id := Advance(taker, f.quantity)][f.maker := Advance(maker, f.quantity)],
       trades := s.trades + [MatchedTrade(taker, id, maker, f)])
  }

  lemma MatchedClaims(s: State, id: OrderId, f: Fill, extra: real, rows: Rows, k: Account)
    requires Sound(s) && Fits(s, id, f, extra)
    ensures Claims(Matched(s, id, f, rows), k)
         == Claims(s, k) + ClaimsChange(s.orders[id], s.orders[f.maker], f, k)
  {
    var taker, maker := s.orders[id], s.orders[f.maker];
    AdvanceUnlocks(taker, f.quantity, k);
    AdvanceUnlocks(maker, f.quantity, k);
    SumUpdate(s.orders, id, Advance(taker, f.quantity), OrderLock(k));
    SumUpdate(s.orders[id := Advance(taker, f.quantity)], f.maker, Advance(maker, f.quantity), OrderLock(k));
    SumSnoc(s.trades, MatchedTrade(taker, id, maker, f), TradeLock(k));
  }

  /** The two changes are the same, but for what a market buy's fill costs above or below its own price. */
  lemma ChangesAgree(taker: Order, maker: Order, f: Fill, k: Account)
    requires Eligible(taker, maker) && f.price == maker.price
    ensures LedgerChange(taker, maker, f, k)
         == ClaimsChange(taker, maker, f, k)
          + At(k, CollateralOf(taker), ExtraAfter(taker, 0.0, f.quantity, Pay(f.quantity, f.price)))
  {
  }

  lemma MatchedCovered(s: State, id: OrderId, f: Fill, extra: real, rows: Rows)
    requires Sound(s) && Fits(s, id, f, extra) && CoveredBut(s, CollateralOf(s.orders[id]), extra)
    requires forall k :: Locked(rows, k) == Locked(s.rows, k) + LedgerChange(s.orders[id], s.orders[f.maker], f, k)
    ensures CoveredBut(Matched(s, id, f, rows), CollateralOf(s.orders[id]),
                       ExtraAfter(s.orders[id], extra, f.quantity, Pay(f.quantity, f.price)))
  {
    var taker, maker := s.orders[id], s.orders[f.maker];
    forall k
      ensures Locked(rows, k) == Claims(Matched(s, id, f, rows), k)
           + At(k, CollateralOf(taker), ExtraAfter(taker, extra, f.quantity, Pay(f.quantity, f.price)))
    {
      ChangesAgree(taker, maker, f, k);
      MatchedClaims(s, id, f, extra, rows, k);
    }
  }

  lemma MatchedSound(s: State, id: OrderId, f: Fill, extra: real, rows: Rows)
    requires Sound(s) && Fits(s, id, f, extra) && f.price > 0.0 && NonNegative(rows)
    ensures Sound(Matched(s, id, f, rows))
  {
    var after := Matched(s, id, f, rows);
    var taker, maker := s.orders[id], s.orders[f.maker];
    var trade := MatchedTrade(taker, id, maker, f);
    AdvanceUnlocks(taker, f.quantity, CollateralOf(taker));
    AdvanceUnlocks(maker, f.quantity, CollateralOf(maker));
    forall i | 0 <= i < |after.orders|
      ensures after.orders[i].filled == Sum(after.trades, TradedBy(i))
    {
      SumSnoc(s.trades, trade, TradedBy(i));
    }
    NoReleasesBeyond(s.released, |s.trades|);
  }

  lemma {:induction false} NoReleasesBeyond(released: seq<Release>, t: TradeId)
    requires forall i :: 0 <= i < |released| ==> released[i].trade < t
    ensures ReleasesOf(released, t) == []
  {
    if released != [] {
      NoReleasesBeyond(released[..|released| - 1], t);
    }
  }

  lemma ApplyFillIsMatched(s: State, id: OrderId, f: Fill)
    requires id < |s.orders| && f.maker < |s.orders|
    requires f.takerFilled == s.orders[id].filled + f.quantity
    requires f.makerFilled == s.orders[f.maker].filled + f.quantity
    ensures var ledger := FillLedger(s.rows, s.orders[id], s.orders[f.maker], f);
            ApplyFill(s, id, f) == if ledger.Ok? then Ok(Matched(s, id, f, ledger.value)) else Err(ledger.error)
  {
  }

  /** One match commits unless it is at price zero, and keeps every table in order. */
  lemma ApplyFillSound(s: State, id: OrderId, f: Fill, extra: real)
    requires Sound(s) && Fits(s, id, f, extra) && CoveredBut(s, CollateralOf(s.orders[id]), extra)
    ensures ApplyFill(s, id, f).Ok? <==> f.price > 0.0
    ensures f.price > 0.0 ==>
              var after := ApplyFill(s, id, f).value;
              var taker := s.orders[id];
              && Sound(after)
              && CoveredBut(after, CollateralOf(taker), ExtraAfter(taker, extra, f.quantity, Pay(f.quantity, f.price)))
              && SameTotals(s.rows, after.rows)
              && after == Matched(s, id, f, after.rows)
  {
    var taker, maker := s.orders[id], s.orders[f.maker];
    ApplyFillIsMatched(s, id, f);
    FitsIsFunded(s, id, f, extra);
    FillLedgerEffect(s.rows, taker, maker, f);
    if f.price > 0.0 {
      var rows := FillLedger(s.rows, taker, maker, f).value;
      MatchedSound(s, id, f, extra, rows);
      MatchedCovered(s, id, f, extra, rows);
    }
  }

  // ----- All matches of one job

  function Progress(o: Order, q: real): Order {
    if q > 0.0 then Advance(o, q) else o
  }

  /** An allocation over resting orders that are still as the plan saw them, and that the taker has room for. */
  ghost predicate PlannedBook(now: seq<Order>, id: OrderId, orders: seq<Order>, book: seq<OrderId>, alloc: seq<real>) {
    && id < |now| == |orders|
    && |alloc| == |book|
    && Within(book, |orders|)
    && Distinct(book)
    && (forall j :: 0 <= j < |book| ==>
          && book[j] != id
          && now[book[j]] == orders[book[j]]
          && Eligible(now[id], orders[book[j]])
          && 0.0 <= alloc[j] <= Remaining(orders[book[j]]))
    && now[id].status in {Open, PartiallyFilled, Filled}
    && Quantity(alloc) <= Remaining(now[id])
  }

  /** A market buy can pay for the allocation. */
  ghost predicate Budgeted(o: Order, orders: seq<Order>, book: seq<OrderId>, alloc: seq<real>, extra: real)
    requires |alloc| == |book| && Within(book, |orders|)
  {
    if BudgetOf(o).Some? then Cost(Levels(orders, book), alloc) <= Pay(Remaining(o), o.price) + extra else extra == 0.0
  }

  ghost predicate Planned(
    s: State, id: OrderId, orders: seq<Order>, book: seq<OrderId>, alloc: seq<real>, extra: real)
  {
    && PlannedBook(s.orders, id, orders, book, alloc)
    && Budgeted(s.orders[id], orders, book, alloc, extra)
  }

  lemma {:induction false} QuantityNonNegative(alloc: seq<real>)
    requires forall j :: 0 <= j < |alloc| ==> alloc[j] >= 0.0
    ensures Quantity(alloc) >= 0.0
  {
    if alloc != [] {
      QuantityNonNegative(alloc[1..]);
    }
  }

  lemma {:induction false} CostNonNegative(levels: seq<Level>, alloc: seq<real>)
    requires |levels| == |alloc|
    requires forall j :: 0 <= j < |alloc| ==> alloc[j] >= 0.0 && levels[j].price >= 0.0
    ensures Cost(levels, alloc) >= 0.0
  {
    if alloc != [] {
      CostNonNegative(levels[1..], alloc[1..]);
      PayMonotone(0.0, alloc[0], 0.0, levels[0].price);
    }
  }

  /** The head of a plan fits the tables as they stand. */
  lemma HeadFits(s: State, id: OrderId, orders: seq<Order>, book: seq<OrderId>, alloc: seq<real>, extra: real)
    requires Sound(s) && Planned(s, id, orders, book, alloc, extra)
    requires book != [] && alloc[0] > 0.0
    ensures Fits(s, id, FillsFor(orders, book, alloc, s.orders[id].filled)[0], extra)
  {
    QuantityNonNegative(alloc[1..]);
    var levels := Levels(orders, book);
    CostNonNegative(levels[1..], alloc[1..]);
    assert Quantity(alloc) == alloc[0] + Quantity(alloc[1..]);
    assert Cost(levels, alloc) == Pay(alloc[0], levels[0].price) + Cost(levels[1..], alloc[1..]);
  }

  /** The orders after the head match of a plan. */
  function HeadMatched(now: seq<Order>, id: OrderId, book: seq<OrderId>, alloc: seq<real>): seq<Order>
    requires id < |now| && |alloc| == |book| && Within(book, |now|) && book != []
  {
    now[id := Advance(now[id], alloc[0])][book[0] := Advance(now[book[0]], alloc[0])]
  }

  lemma BookTail(now: seq<Order>, id: OrderId, orders: seq<Order>, book: seq<OrderId>, alloc: seq<real>)
    requires PlannedBook(now, id, orders, book, alloc)
    requires book != []
    ensures alloc[0] > 0.0 ==> PlannedBook(HeadMatched(now, id, book, alloc), id, orders, book[1..], alloc[1..])
    ensures alloc[0] <= 0.0 ==> PlannedBook(now, id, orders, book[1..], alloc[1..])
  {
    QuantityNonNegative(alloc[1..]);
    assert Quantity(alloc) == alloc[0] + Quantity(alloc[1..]);
  }

  lemma BudgetTail(o: Order, orders: seq<Order>, book: seq<OrderId>, alloc: seq<real>, extra: real)
    requires |alloc| == |book| && Within(book, |orders|) && book != []
    requires Budgeted(o, orders, book, alloc, extra)
    ensures Budgeted(Advance(o, alloc[0]), orders, book[1..], alloc[1..],
                     ExtraAfter(o, extra, alloc[0], Pay(alloc[0], orders[book[0]].price)))
  {
    assert Levels(orders, book[1..]) == Levels(orders, book)[1..];
    PayAdds(alloc[0], Remaining(o) - alloc[0], o.price);
  }

  predicate AllPriced(fills: seq<Fill>) {
    forall k :: 0 <= k < |fills| ==> fills[k].price > 0.0
  }

  /** How the planned matches leave the orders. */
  ghost predicate Progressed(before: seq<Order>, after: seq<Order>, id: OrderId, book: seq<OrderId>, alloc: seq<real>)
    requires id < |before| && |alloc| == |book| && Within(book, |before|)
  {
    && |after| == |before|
    && after[id] == Progress(before[id], Quantity(alloc))
    && (forall j :: 0 <= j < |book| ==> after[book[j]] == Progress(before[book[j]], alloc[j]))
    && (forall i: nat :: i < |before| && i != id && i !in book ==> after[i] == before[i])
  }

  lemma FillsTail(orders: seq<Order>, book: seq<OrderId>, alloc: seq<real>, takerFilled: real, next: real)
    requires |alloc| == |book| && Within(book, |orders|)
    requires book != [] && alloc[0] > 0.0 && next == takerFilled + alloc[0]
    ensures var fills := FillsFor(orders, book, alloc, takerFilled);
            && fills != []
            && fills[0] == Fill(book[0], alloc[0], orders[book[0]].price, next, orders[book[0]].filled + alloc[0])
            && fills[1..] == FillsFor(orders, book[1..], alloc[1..], next)
  {
  }

  lemma HeadAndTail(s: State, id: OrderId, fills: seq<Fill>)
    requires id < |s.orders| && MakersWithin(fills, |s.orders|) && fills != []
    ensures AllPriced(fills) <==> fills[0].price > 0.0 && AllPriced(fills[1..])
    ensures ApplyFill(s, id, fills[0]).Err? ==> ApplyFills(s, id, fills).Err?
    ensures ApplyFill(s, id, fills[0]).Ok? ==>
              ApplyFills(s, id, fills) == ApplyFills(ApplyFill(s, id, fills[0]).value, id, fills[1..])
  {
    assert fills == [fills[0]] + fills[1..];
  }

  /** The tables after the planned matches of a transaction that commits. */
  ghost predicate Settles(s: State, account: Account, extra: real, after: State) {
    && Sound(after)
    && CoveredBut(after, account, extra)
    && SameTotals(s.rows, after.rows)
    && after.queue == s.queue
  }

  /** After the head match of a plan everything is set for the rest of it. */
  lemma HeadStep(s: State, id: OrderId, orders: seq<Order>, book: seq<OrderId>, alloc: seq<real>, extra: real)
    returns (mid: State, rest: real)
    requires Sound(s) && Planned(s, id, orders, book, alloc, extra)
    requires CoveredBut(s, CollateralOf(s.orders[id]), extra)
    requires book != [] && alloc[0] > 0.0 && orders[book[0]].price > 0.0
    ensures var o := s.orders[id];
            && ApplyFill(s, id, FillsFor(orders, book, alloc, o.filled)[0]) == Ok(mid)
            && Settles(s, CollateralOf(o), rest, mid)
            && Planned(mid, id, orders, book[1..], alloc[1..], rest)
            && CollateralOf(mid.orders[id]) == CollateralOf(o)
            && FillsFor(orders, book, alloc, o.filled)[1..]
            == FillsFor(orders, book[1..], alloc[1..], mid.orders[id].filled)
            && ExtraAfter(o, extra, Quantity(alloc), Cost(Levels(orders, book), alloc))
            == ExtraAfter(mid.orders[id], rest, Quantity(alloc[1..]), Cost(Levels(orders, book[1..]), alloc[1..]))
  {
    var o := s.orders[id];
    var f := FillsFor(orders, book, alloc, o.filled)[0];
    HeadFits(s, id, orders, book, alloc, extra);
    ApplyFillSound(s, id, f, extra);
    mid := ApplyFill(s, id, f).value;
    rest := ExtraAfter(o, extra, alloc[0], Pay(alloc[0], orders[book[0]].price));
    BookTail(s.orders, id, orders, book, alloc);
    BudgetTail(o, orders, book, alloc, extra);
    FillsTail(orders, book, alloc, o.filled, mid.orders[id].filled);
    ExtraInTwo(o, mid.orders[id], extra, orders, book, alloc);
  }

  /** The matching transaction commits unless some match is at price zero, and keeps every table in order. */
  lemma {:induction false} ApplyFillsSound(
    s: State, id: OrderId, orders: seq<Order>, book: seq<OrderId>, alloc: seq<real>, extra: real, fills: seq<Fill>,
    final: real)
    requires Sound(s) && Planned(s, id, orders, book, alloc, extra)
    requires CoveredBut(s, CollateralOf(s.orders[id]), extra)
    requires fills == FillsFor(orders, book, alloc, s.orders[id].filled)
    requires final == ExtraAfter(s.orders[id], extra, Quantity(alloc), Cost(Levels(orders, book), alloc))
    ensures MakersWithin(fills, |s.orders|)
    ensures ApplyFills(s, id, fills).Ok? <==> AllPriced(fills)
    ensures AllPriced(fills) ==> Settles(s, CollateralOf(s.orders[id]), final, ApplyFills(s, id, fills).value)
    decreases |book|
  {
    var o := s.orders[id];
    FillsInRange(orders, book, alloc, o.filled);
    if book == [] {
      assert final == extra;
    } else {
      if alloc[0] <= 0.0 {
        SkipPlanned(s, id, orders, book, alloc, extra);
        ApplyFillsSound(s, id, orders, book[1..], alloc[1..], extra, fills, final);
      } else {
        FillsTail(orders, book, alloc, o.filled, o.filled + alloc[0]);
        HeadFits(s, id, orders, book, alloc, extra);
        ApplyFillSound(s, id, fills[0], extra);
        HeadAndTail(s, id, fills);
        if fills[0].price > 0.0 {
          var mid, rest := HeadStep(s, id, orders, book, alloc, extra);
          ApplyFillsSound(mid, id, orders, book[1..], alloc[1..], rest, fills[1..], final);
        }
      }
    }
  }

  lemma ExtraInTwo(o: Order, mid: Order, extra: real, orders: seq<Order>, book: seq<OrderId>, alloc: seq<real>)
    requires |alloc| == |book| && Within(book, |orders|) && book != []
    requires mid == Advance(o, alloc[0])
    ensures ExtraAfter(o, extra, Quantity(alloc), Cost(Levels(orders, book), alloc))
         == ExtraAfter(mid, ExtraAfter(o, extra, alloc[0], Pay(alloc[0], orders[book[0]].price)),
                       Quantity(alloc[1..]), Cost(Levels(orders, book[1..]), alloc[1..]))
  {
    assert Levels(orders, book)[1..] == Levels(orders, book[1..]);
    PayAdds(alloc[0], Quantity(alloc[1..]), o.price);
  }

  lemma SkipPlanned(s: State, id: OrderId, orders: seq<Order>, book: seq<OrderId>, alloc: seq<real>, extra: real)
    requires Planned(s, id, orders, book, alloc, extra)
    requires book != [] && alloc[0] <= 0.0
    ensures Planned(s, id, orders, book[1..], alloc[1..], extra)
    ensures ExtraAfter(s.orders[id], extra, Quantity(alloc), Cost(Levels(orders, book), alloc))
         == ExtraAfter(s.orders[id], extra, Quantity(alloc[1..]), Cost(Levels(orders, book[1..]), alloc[1..]))
  {
    BookTail(s.orders, id, orders, book, alloc);
    assert Levels(orders, book)[1..] == Levels(orders, book[1..]);
    assert Pay(0.0, orders[book[0]].price) == 0.0;
  }

  lemma ProgressInTwo(o: Order, q: real, r: real)
    requires q >= 0.0 && r >= 0.0
    ensures Progress(Progress(o, q), r) == Progress(o, q + r)
  {
  }

  lemma BookByHead(now: seq<Order>, id: OrderId, book: seq<OrderId>, alloc: seq<real>, mid: seq<Order>,
                   after: seq<Order>, j: nat)
    requires id < |now| && |alloc| == |book| && Within(book, |now|) && j < |book|
    requires Distinct(book) && forall j :: 0 <= j < |book| ==> book[j] != id && alloc[j] >= 0.0
    requires mid == if alloc[0] <= 0.0 then now else HeadMatched(now, id, book, alloc)
    requires Progressed(mid, after, id, book[1..], alloc[1..])
    ensures after[book[j]] == Progress(now[book[j]], alloc[j])
  {
    if j > 0 {
      assert book[1..][j - 1] == book[j] && book[j] != book[0];
    } else {
      assert book[0] !in book[1..];
      assert mid[book[0]] == Progress(now[book[0]], alloc[0]);
    }
  }

  lemma ProgressedByHead(now: seq<Order>, id: OrderId, book: seq<OrderId>, alloc: seq<real>, mid: seq<Order>,
                         after: seq<Order>)
    requires id < |now| && |alloc| == |book| && Within(book, |now|) && book != []
    requires Distinct(book) && forall j :: 0 <= j < |book| ==> book[j] != id && alloc[j] >= 0.0
    requires mid == if alloc[0] <= 0.0 then now else HeadMatched(now, id, book, alloc)
    requires Progressed(mid, after, id, book[1..], alloc[1..])
    ensures Progressed(now, after, id, book, alloc)
  {
    QuantityNonNegative(alloc[1..]);
    ProgressInTwo(now[id], alloc[0], Quantity(alloc[1..]));
    assert mid[id] == Progress(now[id], alloc[0]);
    forall j | 0 <= j < |book|
      ensures after[book[j]] == Progress(now[book[j]], alloc[j])
    {
      BookByHead(now, id, book, alloc, mid, after, j);
    }
    forall i: nat | i < |now| && i != id && i !in book
      ensures after[i] == now[i]
    {
      assert i !in book[1..] && i != book[0];
    }
  }

  /** The taker advances by everything allocated, each resting order by its own share, and nobody else moves. */
  lemma {:induction false} ApplyFillsProgress(
    s: State, id: OrderId, orders: seq<Order>, book: seq<OrderId>, alloc: seq<real>, fills: seq<Fill>)
    requires PlannedBook(s.orders, id, orders, book, alloc)
    requires fills == FillsFor(orders, book, alloc, s.orders[id].filled) && MakersWithin(fills, |s.orders|)
    requires ApplyFills(s, id, fills).Ok?
    ensures Progressed(s.orders, ApplyFills(s, id, fills).value.orders, id, book, alloc)
    decreases |book|
  {
    if book != [] {
      BookTail(s.orders, id, orders, book, alloc);
      var after := ApplyFills(s, id, fills).value;
      if alloc[0] <= 0.0 {
        ApplyFillsProgress(s, id, orders, book[1..], alloc[1..], fills);
        ProgressedByHead(s.orders, id, book, alloc, s.orders, after.orders);
      } else {
        FillsTail(orders, book, alloc, s.orders[id].filled, s.orders[id].filled + alloc[0]);
        HeadAndTail(s, id, fills);
        ApplyFillIsMatched(s, id, fills[0]);
        var mid := ApplyFill(s, id, fills[0]).value;
        assert mid.orders == HeadMatched(s.orders, id, book, alloc);
        ApplyFillsProgress(mid, id, orders, book[1..], alloc[1..], fills[1..]);
        ProgressedByHead(s.orders, id, book, alloc, mid.orders, after.orders);
      }
    }
  }
}
