/**
 The exchange as a step system over its stored tables: balances, orders, the matching queue and trades.
 Each step is one database transaction (or one job, or one cron tick); a transaction that throws leaves
 the tables as they were.
 */
module Exchange {
  import opened Common
  import opened Balances
  import opened Allocation

  type OrderId = nat
  type TradeId = nat

  datatype Side = Buy | Sell

  datatype Kind = Limit | Market

  datatype Status = Pending | Open | PartiallyFilled | Filled | Cancelled | Rejected

  /** Ids are positions in the table, so they also give the order of creation. */
  datatype Order = Order(
    user: UserId, asset: AssetId, side: Side, kind: Kind, price: real, quantity: real, filled: real,
    status: Status, key: Option<nat>)

  datatype Settlement = Unsettled | Processing | Settled | Failed | Declined

  /** buyOrder and sellOrder are the model's own note of where a trade came from. */
  datatype Trade = Trade(
    asset: AssetId, buyer: UserId, seller: UserId, price: real, quantity: real, status: Settlement,
    buyOrder: OrderId, sellOrder: OrderId)

  /** The model's own note of one unlock made by the settlement loop for a trade. */
  datatype Release = Release(trade: TradeId, account: Account, amount: real)

  datatype State = State(
    rows: Rows, orders: seq<Order>, queue: seq<OrderId>, trades: seq<Trade>, released: seq<Release>)

  datatype OrderError =
    | BadRequest
    | AssetNotFound
    | AssetNotTradable
    | MissingMaxTotalCost
    | OutsidePriceBand
    | OrderNotFound
    | NotOwner
    | NotCancellable
    | Ledger(error: LedgerError)

  function Lift<T>(r: Result<T, LedgerError>): Result<T, OrderError> {
    match r
    case Ok(v) => Ok(v)
    case Err(e) => Err(Ledger(e))
  }

  // ----- Trading ledger

  /** The pocket an order locks: cash for a buy, the asset for a sale. */
  function Collateral(user: UserId, side: Side, asset: AssetId): Account {
    if side.Buy? then Cash(user) else Holding(user, asset)
  }

  function LockOf(side: Side, quantity: real, price: real): real {
    if side.Buy? then Pay(quantity, price) else quantity
  }

  function LockOrderFunds(rows: Rows, user: UserId, side: Side, asset: AssetId, quantity: real, price: real)
    : Result<Rows, LedgerError>
  {
    Transferred(rows, Collateral(user, side, asset), LockOf(side, quantity, price), AvailableToLocked)
  }

  function UnlockOrderRemainder(rows: Rows, user: UserId, side: Side, asset: AssetId, remaining: real, price: real)
    : Result<Rows, LedgerError>
  {
    if remaining <= 0.0 then Ok(rows)
    else Transferred(rows, Collateral(user, side, asset), LockOf(side, remaining, price), LockedToAvailable)
  }

  function SettleMatch(rows: Rows, buyer: UserId, seller: UserId, asset: AssetId, quantity: real, price: real)
    : Result<Rows, LedgerError>
  {
    var quote := Pay(quantity, price);
    var rows :- Updated(rows, Cash(buyer), quote, Debit, false, true);
    var rows :- Updated(rows, Holding(buyer, asset), quantity, Credit, false, true);
    var rows :- Updated(rows, Holding(seller, asset), quantity, Debit, false, true);
    Updated(rows, Cash(seller), quote, Credit, false, true)
  }

  function RefundBuyer(rows: Rows, buyer: UserId, amount: real): Result<Rows, LedgerError> {
    if amount <= 0.0 then Ok(rows) else Transferred(rows, Cash(buyer), amount, LockedToAvailable)
  }

  // ----- Placing orders

  datatype Request = Request(
    side: Side, kind: Kind, asset: AssetId, quantity: real, price: real, maxTotalCost: Option<real>, key: Option<nat>)

  /** What the asset table says at the time of a request. */
  datatype Listing = Listing(
    isActive: bool, isOpen: bool, referencePrice: Option<real>, tokenPrice: real, band: real)

  /** The price the band of a limit order is around. */
  function Reference(listing: Listing): real {
    if listing.referencePrice.Some? then listing.referencePrice.value else listing.tokenPrice
  }

  /** The request format only admits unsigned decimals. */
  predicate WellFormed(req: Request) {
    && req.quantity >= 0.0
    && req.price >= 0.0
    && (req.maxTotalCost.Some? ==> req.maxTotalCost.value >= 0.0)
  }

  /** The price written on the order: the budget per unit for a market buy, nothing for a market sale. */
  function OrderPrice(req: Request, listing: Listing): Result<real, OrderError> {
    match (req.kind, req.side)
    case (Market, Buy) =>
      if req.maxTotalCost.None? then Err(MissingMaxTotalCost)
      // Dividing by a zero quantity gives no finite amount to lock.
      else if req.quantity == 0.0 then Err(BadRequest)
      else Ok(req.maxTotalCost.value / req.quantity)
    case (Market, Sell) => Ok(0.0)
    case (Limit, _) =>
      var lower, upper := Reference(listing) * (1.0 - listing.band), Reference(listing) * (1.0 + listing.band);
      if req.price < lower || req.price > upper then Err(OutsidePriceBand) else Ok(req.price)
  }

  predicate KeyUsed(orders: seq<Order>, key: Option<nat>) {
    key.Some? && exists o :: o in orders && o.key == key
  }

  function CreateOrder(s: State, user: UserId, req: Request, listing: Option<Listing>): Result<State, OrderError> {
    if !WellFormed(req) then Err(BadRequest)
    else if KeyUsed(s.orders, req.key) then Ok(s)
    else if listing.None? then Err(AssetNotFound)
    else if !listing.value.isActive || !listing.value.isOpen then Err(AssetNotTradable)
    else
      var price :- OrderPrice(req, listing.value);
      var rows :- Lift(LockOrderFunds(s.rows, user, req.side, req.asset, req.quantity, price));
      var order := Order(user, req.asset, req.side, req.kind, price, req.quantity, 0.0, Open, req.key);
      Ok(s.(rows := rows, orders := s.orders + [order], queue := s.queue + [|s.orders|]))
  }

  // ----- Cancelling orders

  predicate Live(o: Order) {
    o.status in {Pending, Open, PartiallyFilled}
  }

  function Remaining(o: Order): real {
    o.quantity - o.filled
  }

  function CancelOrder(s: State, user: UserId, id: OrderId): Result<State, OrderError> {
    if id >= |s.orders| then Err(OrderNotFound)
    else
      var o := s.orders[id];
      if o.user != user then Err(NotOwner)
      else if !Live(o) then Err(NotCancellable)
      else
        var rows :- Lift(UnlockOrderRemainder(s.rows, user, o.side, o.asset, Remaining(o), o.price));
        Ok(s.(rows := rows, orders := s.orders[id := o.(status := Cancelled)]))
  }

  // ----- Matching

  /** The rows the matching query selects for an order: the other side of the same asset, open, somebody else's, and
      within the limit price when there is one. */
  predicate Eligible(taker: Order, maker: Order) {
    && maker.asset == taker.asset
    && maker.side != taker.side
    && maker.status == Open
    && maker.user != taker.user
    && (taker.kind.Limit? ==>
          if taker.side.Buy? then maker.price <= taker.price else maker.price >= taker.price)
  }

  /** Best price first for the taker, then first come first served. */
  predicate Before(orders: seq<Order>, side: Side, i: OrderId, j: OrderId)
    requires i < |orders| && j < |orders|
  {
    var p, q := orders[i].price, orders[j].price;
    (if side.Buy? then p < q else p > q) || (p == q && i < j)
  }

  function Insert(orders: seq<Order>, side: Side, book: seq<OrderId>, j: OrderId): (longer: seq<OrderId>)
    requires j < |orders| && Within(book, |orders|)
    ensures Within(longer, |orders|)
    ensures forall i :: i in longer <==> i == j || i in book
  {
    if book == [] || Before(orders, side, j, book[0]) then [j] + book
    else [book[0]] + Insert(orders, side, book[1..], j)
  }

  /** The query's answer: the eligible orders among the first n, sorted. */
  function Book(orders: seq<Order>, taker: Order, n: nat): (book: seq<OrderId>)
    requires n <= |orders|
    ensures Within(book, n)
    ensures forall i: nat :: i in book <==> i < n && Eligible(taker, orders[i])
  {
    if n == 0 then []
    else
      var book := Book(orders, taker, n - 1);
      var longer := if Eligible(taker, orders[n - 1]) then Insert(orders, taker.side, book, n - 1) else book;
      assert forall k :: 0 <= k < |longer| ==> longer[k] in longer;
      longer
  }

  function LevelOf(o: Order): Level {
    Level(o.price, Remaining(o))
  }

  function Levels(orders: seq<Order>, book: seq<OrderId>): (levels: seq<Level>)
    requires Within(book, |orders|)
    ensures |levels| == |book|
  {
    seq(|book|, k requires 0 <= k < |book| => LevelOf(orders[book[k]]))
  }

  /** The spending cap of a market buy; other orders have none. */
  function BudgetOf(o: Order): Option<real> {
    if o.kind.Market? && o.side.Buy? then Some(Pay(o.quantity, o.price)) else None
  }

  /** One planned match, with the filled quantities the transaction will write. */
  datatype Fill = Fill(maker: OrderId, quantity: real, price: real, takerFilled: real, makerFilled: real)

  predicate MakersWithin(fills: seq<Fill>, n: nat) {
    forall k :: 0 <= k < |fills| ==> fills[k].maker < n
  }

  /** The matches for an allocation over the book, the taker having takerFilled already. */
  function FillsFor(orders: seq<Order>, book: seq<OrderId>, alloc: seq<real>, takerFilled: real): seq<Fill>
    requires |alloc| == |book| && Within(book, |orders|)
  {
    if book == [] then []
    else if alloc[0] <= 0.0 then FillsFor(orders, book[1..], alloc[1..], takerFilled)
    else
      var maker := orders[book[0]];
      [Fill(book[0], alloc[0], maker.price, takerFilled + alloc[0], maker.filled + alloc[0])]
      + FillsFor(orders, book[1..], alloc[1..], takerFilled + alloc[0])
  }

  function StatusAfter(filled: real, quantity: real): Status {
    if filled == quantity then Filled else PartiallyFilled
  }

  function BuyerOf(taker: Order, maker: Order): UserId {
    if taker.side.Buy? then taker.user else maker.user
  }

  function SellerOf(taker: Order, maker: Order): UserId {
    if taker.side.Buy? then maker.user else taker.user
  }

  function MatchedTrade(taker: Order, id: OrderId, maker: Order, f: Fill): Trade {
    var (buyOrder, sellOrder) := if taker.side.Buy? then (id, f.maker) else (f.maker, id);
    Trade(taker.asset, BuyerOf(taker, maker), SellerOf(taker, maker), f.price, f.quantity, Unsettled,
          buyOrder, sellOrder)
  }

  /** The ledger side of one match, with the price improvement of a limit buy given back. */
  function FillLedger(rows: Rows, taker: Order, maker: Order, f: Fill): Result<Rows, LedgerError> {
    var rows :- SettleMatch(rows, BuyerOf(taker, maker), SellerOf(taker, maker), taker.asset, f.quantity, f.price);
    if taker.kind.Limit? && taker.side.Buy? && f.price < taker.price
    then RefundBuyer(rows, taker.user, Pay(f.quantity, taker.price - f.price))
    else Ok(rows)
  }

  function ApplyFill(s: State, id: OrderId, f: Fill): Result<State, LedgerError>
    requires id < |s.orders| && f.maker < |s.orders|
  {
    var taker, maker := s.orders[id], s.orders[f.maker];
    var orders := s.orders[id := taker.(filled := f.takerFilled, status := StatusAfter(f.takerFilled, taker.quantity))]
                          [f.maker := maker.(filled := f.makerFilled,
                                             status := StatusAfter(f.makerFilled, maker.quantity))];
    var rows :- FillLedger(s.rows, taker, maker, f);
    Ok(s.(rows := rows, orders := orders, trades := s.trades + [MatchedTrade(taker, id, maker, f)]))
  }

  function ApplyFills(s: State, id: OrderId, fills: seq<Fill>): Result<State, LedgerError>
    requires id < |s.orders| && MakersWithin(fills, |s.orders|)
    decreases |fills|
  {
    if fills == [] then Ok(s)
    else
      var s :- ApplyFill(s, id, fills[0]);
      ApplyFills(s, id, fills[1..])
  }

  /** What a market order does with its remainder and its unspent budget. */
  function CloseMarket(s: State, id: OrderId, remaining: real, spent: real): Result<State, LedgerError>
    requires id < |s.orders|
  {
    var o := s.orders[id];
    if o.kind.Limit? then Ok(s)
    else
      var orders := if remaining > 0.0 then s.orders[id := o.(status := Cancelled)] else s.orders;
      var rows :-
        if o.side.Buy? then RefundBuyer(s.rows, o.user, Pay(o.quantity, o.price) - spent)
        else if remaining > 0.0 then UnlockOrderRemainder(s.rows, o.user, o.side, o.asset, remaining, 0.0)
        else Ok(s.rows);
      Ok(s.(rows := rows, orders := orders))
  }

  /** What the loop decides for an order: the book it sees and how much it takes from each entry. */
  datatype Plan = Plan(book: seq<OrderId>, levels: seq<Level>, alloc: seq<real>)

  ghost predicate PricesNonNegative(orders: seq<Order>) {
    forall i :: 0 <= i < |orders| ==> orders[i].price >= 0.0 && orders[i].quantity >= 0.0
  }

  lemma PlanAffordable(orders: seq<Order>, id: OrderId, book: seq<OrderId>)
    requires PricesNonNegative(orders) && id < |orders|
    requires Within(book, |orders|)
    ensures Affordable(Levels(orders, book), BudgetOf(orders[id]), 0.0)
  {
  }

  function PlanFor(orders: seq<Order>, id: OrderId): Plan
    requires id < |orders| && PricesNonNegative(orders)
  {
    var book := Book(orders, orders[id], |orders|);
    PlanAffordable(orders, id, book);
    Plan(book, Levels(orders, book), Allocate(Levels(orders, book), orders[id].quantity, BudgetOf(orders[id]), 0.0))
  }

  function Fills(orders: seq<Order>, id: OrderId): (fills: seq<Fill>)
    requires id < |orders| && PricesNonNegative(orders)
  {
    var plan := PlanFor(orders, id);
    FillsFor(orders, plan.book, plan.alloc, orders[id].filled)
  }

  lemma {:induction false} FillsInRange(orders: seq<Order>, book: seq<OrderId>, alloc: seq<real>, takerFilled: real)
    requires |alloc| == |book| && Within(book, |orders|)
    ensures MakersWithin(FillsFor(orders, book, alloc, takerFilled), |orders|)
  {
    if book != [] {
      FillsInRange(orders, book[1..], alloc[1..], takerFilled + if alloc[0] <= 0.0 then 0.0 else alloc[0]);
    }
  }

  /** What the loop leaves of the order's quantity. */
  function Unfilled(orders: seq<Order>, id: OrderId): real
    requires id < |orders| && PricesNonNegative(orders)
  {
    orders[id].quantity - Quantity(PlanFor(orders, id).alloc)
  }

  /** What the loop spends (or earns) in all. */
  function Spent(orders: seq<Order>, id: OrderId): real
    requires id < |orders| && PricesNonNegative(orders)
  {
    Cost(PlanFor(orders, id).levels, PlanFor(orders, id).alloc)
  }

  /** One run of the matching job for an order. */
  function MatchOrder(s: State, id: OrderId): Result<State, LedgerError>
    requires PricesNonNegative(s.orders)
  {
    if id >= |s.orders| || s.orders[id].status != Open then Ok(s)
    else
      FillsInRange(s.orders, PlanFor(s.orders, id).book, PlanFor(s.orders, id).alloc, s.orders[id].filled);
      match ApplyFills(s, id, Fills(s.orders, id))
      case Err(e) => Err(e)
      case Ok(after) =>
        ApplyFillsKeepsIds(s, id, Fills(s.orders, id));
        CloseMarket(after, id, Unfilled(s.orders, id), Spent(s.orders, id))
  }

  lemma {:induction false} ApplyFillsKeepsIds(s: State, id: OrderId, fills: seq<Fill>)
    requires id < |s.orders| && MakersWithin(fills, |s.orders|)
    ensures ApplyFills(s, id, fills).Ok? ==> |ApplyFills(s, id, fills).value.orders| == |s.orders|
    decreases |fills|
  {
    if fills != [] && ApplyFill(s, id, fills[0]).Ok? {
      ApplyFillsKeepsIds(ApplyFill(s, id, fills[0]).value, id, fills[1..]);
    }
  }

  /** A worker takes a queued job. A job that throws is retried later, until its last attempt. */
  function RunJob(s: State, at: nat, lastAttempt: bool): State
    requires PricesNonNegative(s.orders)
  {
    if at >= |s.queue| then s
    else
      var queue := s.queue[..at] + s.queue[at + 1..];
      match MatchOrder(s, s.queue[at])
      case Ok(after) => after.(queue := queue)
      case Err(_) => if lastAttempt then s.(queue := queue) else s
  }

  // ----- Settlement

  /** What a settlement tick meets: the trades its query returned, which PROCESSING trades are stale, the users with a
      wallet, the assets with a contract, and the assets whose on-chain call returns. */
  datatype Tick = Tick(
    picked: seq<TradeId>, stale: set<TradeId>, wallets: set<UserId>, contracts: set<AssetId>, succeeds: set<AssetId>)

  const SETTLEMENT_BATCH := 100

  /** The query's answer: at most a batch of distinct trades waiting for settlement. */
  predicate Picks(trades: seq<Trade>, tick: Tick) {
    && |tick.picked| <= SETTLEMENT_BATCH
    && Distinct(tick.picked)
    && Within(tick.picked, |trades|)
    && forall k :: 0 <= k < |tick.picked| ==>
         var t := tick.picked[k];
         trades[t].status in {Unsettled, Failed} || (trades[t].status == Processing && t in tick.stale)
  }

  datatype Group = Group(asset: AssetId, trades: seq<TradeId>)

  predicate GroupsWithin(groups: seq<Group>, n: nat) {
    forall k :: 0 <= k < |groups| ==> Within(groups[k].trades, n)
  }

  /** Appends a trade to its asset's group, opening the group at the end if there is none. */
  function AddToGroup(groups: seq<Group>, asset: AssetId, t: TradeId): seq<Group> {
    if groups == [] then [Group(asset, [t])]
    else if groups[0].asset == asset then [groups[0].(trades := groups[0].trades + [t])] + groups[1..]
    else [groups[0]] + AddToGroup(groups[1..], asset, t)
  }

  function GroupByAsset(trades: seq<Trade>, picked: seq<TradeId>): seq<Group>
    requires Within(picked, |trades|)
  {
    if picked == [] then []
    else
      var t := picked[|picked| - 1];
      AddToGroup(GroupByAsset(trades, picked[..|picked| - 1]), trades[t].asset, t)
  }

  predicate HasWallets(trade: Trade, wallets: set<UserId>) {
    trade.buyer in wallets && trade.seller in wallets
  }

  /** The trades of a group whose two parties do (or do not) both have wallets. */
  function WithWallets(trades: seq<Trade>, ids: seq<TradeId>, wallets: set<UserId>, both: bool): (chosen: seq<TradeId>)
    requires Within(ids, |trades|)
    ensures Within(chosen, |trades|)
    ensures forall t: nat :: t in chosen <==> t < |trades| && t in ids && HasWallets(trades[t], wallets) == both
  {
    if ids == [] then []
    else if HasWallets(trades[ids[0]], wallets) == both
    then [ids[0]] + WithWallets(trades, ids[1..], wallets, both)
    else WithWallets(trades, ids[1..], wallets, both)
  }

  function Mark(trades: seq<Trade>, ids: seq<TradeId>, status: Settlement): (marked: seq<Trade>)
    requires Within(ids, |trades|)
    ensures |marked| == |trades|
    ensures forall t :: 0 <= t < |trades| ==> marked[t] == if t in ids then trades[t].(status := status) else trades[t]
    decreases |ids|
  {
    if ids == [] then trades
    else Mark(trades[ids[0] := trades[ids[0]].(status := status)], ids[1..], status)
  }

  datatype Unlocking = Unlocking(rows: Rows, released: seq<Release>, done: bool)

  /** The unlock loop. Each transfer is its own transaction, so a throw keeps what went before. */
  function UnlockTrades(rows: Rows, released: seq<Release>, trades: seq<Trade>, ids: seq<TradeId>): Unlocking
    requires Within(ids, |trades|)
    decreases |ids|
  {
    if ids == [] then Unlocking(rows, released, true)
    else
      var t := trades[ids[0]];
      var quote := Pay(t.quantity, t.price);
      match Transferred(rows, Holding(t.buyer, t.asset), t.quantity, LockedToAvailable)
      case Err(_) => Unlocking(rows, released, false)
      case Ok(rows) =>
        var released := released + [Release(ids[0], Holding(t.buyer, t.asset), t.quantity)];
        match Transferred(rows, Cash(t.seller), quote, LockedToAvailable)
        case Err(_) => Unlocking(rows, released, false)
        case Ok(rows) =>
          UnlockTrades(rows, released + [Release(ids[0], Cash(t.seller), quote)], trades, ids[1..])
  }

  function SettleGroup(s: State, tick: Tick, group: Group): State
    requires Within(group.trades, |s.trades|)
  {
    if group.asset !in tick.contracts then s
    else
      var declined := WithWallets(s.trades, group.trades, tick.wallets, false);
      var eligible := WithWallets(s.trades, group.trades, tick.wallets, true);
      var trades := Mark(s.trades, declined, Declined);
      if eligible == [] then s.(trades := trades)
      else
        var trades := Mark(trades, eligible, Processing);
        if group.asset !in tick.succeeds then s.(trades := Mark(trades, group.trades, Failed))
        else
          var unlocking := UnlockTrades(s.rows, s.released, trades, eligible);
          s.(rows := unlocking.rows, released := unlocking.released,
             trades := if unlocking.done then Mark(trades, eligible, Settled) else Mark(trades, group.trades, Failed))
  }

  function SettleGroups(s: State, tick: Tick, groups: seq<Group>): State
    requires GroupsWithin(groups, |s.trades|)
    decreases |groups|
  {
    if groups == [] then s
    else SettleGroups(SettleGroup(s, tick, groups[0]), tick, groups[1..])
  }

  lemma {:induction false} AddToGroupMembers(groups: seq<Group>, asset: AssetId, t: TradeId, n: nat)
    requires t < n && GroupsWithin(groups, n)
    ensures GroupsWithin(AddToGroup(groups, asset, t), n)
  {
    if groups != [] && groups[0].asset != asset {
      AddToGroupMembers(groups[1..], asset, t, n);
    }
  }

  lemma {:induction false} GroupMembers(trades: seq<Trade>, picked: seq<TradeId>)
    requires Within(picked, |trades|)
    ensures GroupsWithin(GroupByAsset(trades, picked), |trades|)
  {
    if picked != [] {
      var n := |picked| - 1;
      GroupMembers(trades, picked[..n]);
      AddToGroupMembers(GroupByAsset(trades, picked[..n]), trades[picked[n]].asset, picked[n], |trades|);
    }
  }

  function SettleTick(s: State, tick: Tick): State {
    if !Picks(s.trades, tick) then s
    else
      GroupMembers(s.trades, tick.picked);
      SettleGroups(s, tick, GroupByAsset(s.trades, tick.picked))
  }

  // ----- Runs

  datatype Step =
    | Create(user: UserId, req: Request, listing: Option<Listing>)
    | Run(at: nat, lastAttempt: bool)
    | Cancel(user: UserId, id: OrderId)
    | Settle(tick: Tick)

  /** A step that throws leaves the tables alone. */
  function Next(s: State, step: Step): State
    requires PricesNonNegative(s.orders)
  {
    match step
    case Create(user, req, listing) =>
      (match CreateOrder(s, user, req, listing)
       case Ok(after) => after
       case Err(_) => s)
    case Run(at, lastAttempt) => RunJob(s, at, lastAttempt)
    case Cancel(user, id) =>
      (match CancelOrder(s, user, id)
       case Ok(after) => after
       case Err(_) => s)
    case Settle(tick) => SettleTick(s, tick)
  }
}
