/** Paying out the holders of a liquidated asset, one transaction a holder, resumable at any point. */
module Liquidation {
  import opened Common
  import opened Balances

  /** What a holding is paid. */
  type Valuation = real -> real

  /** Paying by the unit. */
  function AtPrice(price: real): Valuation {
    (held: real) => Pay(held, price)
  }

  ghost predicate NeverNegative(worth: Valuation) {
    forall held :: held >= 0.0 ==> worth(held) >= 0.0
  }

  ghost predicate Linear(worth: Valuation) {
    forall x, y, z {:trigger worth(x), worth(y), worth(z)} :: x == y - z ==> worth(x) == worth(y) - worth(z)
  }

  /** All the cash, and all of the asset at its valuation. */
  ghost function Wealth(rows: Rows, asset: AssetId, worth: Valuation): real {
    Total(rows, None) + worth(Total(rows, Some(asset)))
  }

  function HeldBy(rows: Rows, user: UserId, asset: AssetId): real {
    var row := RowAt(rows, Holding(user, asset));
    row.available + row.locked
  }

  /** A cash row after a payout. */
  function PaidCash(cash: Row, payout: real): Row {
    Row(cash.available + payout, cash.locked)
  }

  /** One holder's transaction: cash for both pockets at the liquidation price, and the asset row emptied. */
  function PayHolder(rows: Rows, user: UserId, asset: AssetId, worth: Valuation): Rows {
    var held := HeldBy(rows, user, asset);
    if held <= 0.0 then rows
    else
      var cash := PaidCash(RowAt(rows, Cash(user)), worth(held));
      rows[Cash(user) := cash][Holding(user, asset) := Row(0.0, 0.0)]
  }

  /** The payout loop over some holders. */
  function Payouts(rows: Rows, users: seq<UserId>, asset: AssetId, worth: Valuation): Rows {
    if users == [] then rows
    else PayHolder(Payouts(rows, users[..|users| - 1], asset, worth), users[|users| - 1], asset, worth)
  }

  predicate Holds(rows: Rows, user: UserId, asset: AssetId) {
    var row := RowAt(rows, Holding(user, asset));
    row.available > 0.0 || row.locked > 0.0
  }

  /** The answer of the holders query: everyone with something in either pocket, once each, in whatever order. */
  ghost predicate AreHolders(rows: Rows, users: seq<UserId>, asset: AssetId) {
    && Distinct(users)
    && forall u: UserId :: u in users <==> Holds(rows, u, asset)
  }

  /** What an account holds once a set of holders has been paid. */
  function Expected(rows: Rows, paid: set<UserId>, asset: AssetId, worth: Valuation, k: Account): Row {
    if k.user !in paid then RowAt(rows, k)
    else
      match k.asset
      case None => PaidCash(RowAt(rows, k), worth(HeldBy(rows, k.user, asset)))
      case Some(a) => if a == asset then Row(0.0, 0.0) else RowAt(rows, k)
  }

  /** One more turn of the loop. */
  lemma PayoutsNext(rows: Rows, users: seq<UserId>, user: UserId, asset: AssetId, worth: Valuation)
    ensures Payouts(rows, users + [user], asset, worth)
         == PayHolder(Payouts(rows, users, asset, worth), user, asset, worth)
  {
    assert (users + [user])[..|users|] == users;
  }

  /** One run of the job: what its holders query returned, and how many of them it got to. */
  datatype Attempt = Attempt(holders: seq<UserId>, reached: nat)

  function AfterAttempt(rows: Rows, attempt: Attempt, asset: AssetId, worth: Valuation): Rows
    requires attempt.reached <= |attempt.holders|
  {
    Payouts(rows, attempt.holders[..attempt.reached], asset, worth)
  }

  /** Successive runs of the job, each querying the holders afresh. */
  ghost predicate AreAttempts(rows: Rows, attempts: seq<Attempt>, asset: AssetId, worth: Valuation)
    decreases |attempts|
  {
    attempts != [] ==>
      && AreHolders(rows, attempts[0].holders, asset)
      && attempts[0].reached <= |attempts[0].holders|
      && AreAttempts(AfterAttempt(rows, attempts[0], asset, worth), attempts[1..], asset, worth)
  }

  ghost function AfterAttempts(rows: Rows, attempts: seq<Attempt>, asset: AssetId, worth: Valuation): Rows
    requires AreAttempts(rows, attempts, asset, worth)
    decreases |attempts|
  {
    if attempts == [] then rows
    else AfterAttempts(AfterAttempt(rows, attempts[0], asset, worth), attempts[1..], asset, worth)
  }

  function Members(users: seq<UserId>): set<UserId> {
    set u | u in users
  }
}

/** The payout's two promises: stopping and rerunning changes nothing, and nothing is lost. */
module LiquidationSafety {
  import opened Common
  import opened Sums
  import opened Balances
  import opened Liquidation

  lemma AtPriceIsLinear(price: real)
    requires price >= 0.0
    ensures Linear(AtPrice(price)) && NeverNegative(AtPrice(price))
  {
    var worth := AtPrice(price);
    forall x, y, z | x == y - z
      ensures worth(x) == worth(y) - worth(z)
    {
      assert Pay(y - z, price) == Pay(y, price) - Pay(z, price);
    }
    forall held | held >= 0.0
      ensures worth(held) >= 0.0
    {
      assert Pay(held, price) >= 0.0;
    }
  }

  lemma PayOne(rows: Rows, done: Rows, paid: set<UserId>, user: UserId, asset: AssetId, worth: Valuation, k: Account)
    requires NonNegative(rows) && user !in paid && Holds(rows, user, asset)
    requires forall j :: RowAt(done, j) == Expected(rows, paid, asset, worth, j)
    ensures RowAt(PayHolder(done, user, asset, worth), k) == Expected(rows, paid + {user}, asset, worth, k)
  {
    assert RowAt(done, Holding(user, asset)) == RowAt(rows, Holding(user, asset));
    assert RowAt(done, Cash(user)) == RowAt(rows, Cash(user));
    assert RowAt(done, k) == Expected(rows, paid, asset, worth, k);
  }

  /** The payout loop pays each of its holders exactly once, whatever the order, and touches nothing else. */
  lemma {:induction false} PayoutsAreExpected(rows: Rows, users: seq<UserId>, asset: AssetId, worth: Valuation)
    requires NonNegative(rows) && Distinct(users)
    requires forall u: UserId :: u in users ==> Holds(rows, u, asset)
    ensures forall k :: RowAt(Payouts(rows, users, asset, worth), k) == Expected(rows, Members(users), asset, worth, k)
  {
    if users != [] {
      var n := |users| - 1;
      assert users == users[..n] + [users[n]];
      PayoutsAreExpected(rows, users[..n], asset, worth);
      assert Members(users) == Members(users[..n]) + {users[n]};
      assert users[n] !in users[..n];
      forall k
        ensures RowAt(Payouts(rows, users, asset, worth), k) == Expected(rows, Members(users), asset, worth, k)
      {
        PayOne(rows, Payouts(rows, users[..n], asset, worth), Members(users[..n]), users[n], asset, worth, k);
      }
    }
  }

  /** A complete payout, told in pockets: every holder's available cash grows by the price of both asset pockets, nobody
      has any of the asset left, and nothing else changes. */
  lemma HoldersArePaidInFull(rows: Rows, users: seq<UserId>, asset: AssetId, price: real, user: UserId)
    requires NonNegative(rows) && Distinct(users)
    requires forall u: UserId :: u in users <==>
               Available(rows, Holding(u, asset)) > 0.0 || Locked(rows, Holding(u, asset)) > 0.0
    ensures var after, cash, holding := Payouts(rows, users, asset, AtPrice(price)), Cash(user), Holding(user, asset);
            && Available(after, cash) == Available(rows, cash)
                                       + Pay(Available(rows, holding) + Locked(rows, holding), price)
            && Locked(after, cash) == Locked(rows, cash)
            && Available(after, holding) == Locked(after, holding) == 0.0
            && forall other: AssetId :: other != asset ==>
                 RowAt(after, Holding(user, other)) == RowAt(rows, Holding(user, other))
  {
    var after, worth := Payouts(rows, users, asset, AtPrice(price)), AtPrice(price);
    PayoutsAreExpected(rows, users, asset, worth);
    assert RowAt(after, Cash(user)) == Expected(rows, Members(users), asset, worth, Cash(user));
    assert RowAt(after, Holding(user, asset)) == Expected(rows, Members(users), asset, worth, Holding(user, asset));
    assert Pay(0.0, price) == 0.0;
    forall other: AssetId | other != asset
      ensures RowAt(after, Holding(user, other)) == RowAt(rows, Holding(user, other))
    {
      assert RowAt(after, Holding(user, other)) == Expected(rows, Members(users), asset, worth, Holding(user, other));
    }
  }

  lemma PayHolderNonNegative(rows: Rows, user: UserId, asset: AssetId, worth: Valuation)
    requires NonNegative(rows) && NeverNegative(worth)
    ensures NonNegative(PayHolder(rows, user, asset, worth))
  {
    if HeldBy(rows, user, asset) > 0.0 {
      assert worth(HeldBy(rows, user, asset)) >= 0.0;
    }
  }

  lemma {:induction false} PayoutsNonNegative(rows: Rows, users: seq<UserId>, asset: AssetId, worth: Valuation)
    requires NonNegative(rows) && NeverNegative(worth)
    ensures NonNegative(Payouts(rows, users, asset, worth))
  {
    if users != [] {
      PayoutsNonNegative(rows, users[..|users| - 1], asset, worth);
      PayHolderNonNegative(Payouts(rows, users[..|users| - 1], asset, worth), users[|users| - 1], asset, worth);
    }
  }

  lemma ExpectedInTwo(
    rows: Rows, mid: Rows, first: set<UserId>, rest: set<UserId>, asset: AssetId, worth: Valuation, k: Account)
    requires RowAt(mid, k) == Expected(rows, first, asset, worth, k)
    requires RowAt(mid, Holding(k.user, asset)) == Expected(rows, first, asset, worth, Holding(k.user, asset))
    requires k.user !in first || k.user !in rest
    ensures Expected(mid, rest, asset, worth, k) == Expected(rows, first + rest, asset, worth, k)
  {
  }

  /** The second query returns exactly the holders the first run did not get to. */
  lemma RestAreUnpaid(
    rows: Rows, mid: Rows, first: seq<UserId>, users: seq<UserId>, rest: seq<UserId>, asset: AssetId, worth: Valuation)
    requires forall j :: RowAt(mid, j) == Expected(rows, Members(first), asset, worth, j)
    requires AreHolders(rows, users, asset) && AreHolders(mid, rest, asset)
    requires forall u: UserId :: u in first ==> u in users
    ensures Members(users) == Members(first) + Members(rest)
    ensures forall u: UserId :: u in first ==> u !in rest
  {
    forall u: UserId
      ensures u in rest <==> u in users && u !in first
    {
      assert RowAt(mid, Holding(u, asset)) == Expected(rows, Members(first), asset, worth, Holding(u, asset));
    }
  }

  /** Stopping after any number of holders and running the job again, with whatever order the second query returns,
      gives every account the balances of one uninterrupted run. */
  lemma ResumedIsUninterrupted(
    rows: Rows, users: seq<UserId>, asset: AssetId, worth: Valuation, stop: nat, rest: seq<UserId>)
    requires NonNegative(rows) && NeverNegative(worth) && stop <= |users|
    requires AreHolders(rows, users, asset)
    requires AreHolders(Payouts(rows, users[..stop], asset, worth), rest, asset)
    ensures forall k :: RowAt(Payouts(Payouts(rows, users[..stop], asset, worth), rest, asset, worth), k)
                     == RowAt(Payouts(rows, users, asset, worth), k)
  {
    var first := users[..stop];
    var mid := Payouts(rows, first, asset, worth);
    assert forall u: UserId :: u in first ==> u in users;
    PayoutsNonNegative(rows, first, asset, worth);
    PayoutsAreExpected(rows, first, asset, worth);
    PayoutsAreExpected(mid, rest, asset, worth);
    PayoutsAreExpected(rows, users, asset, worth);
    RestAreUnpaid(rows, mid, first, users, rest, asset, worth);
    forall k
      ensures Expected(mid, Members(rest), asset, worth, k) == Expected(rows, Members(users), asset, worth, k)
    {
      assert RowAt(mid, k) == Expected(rows, Members(first), asset, worth, k);
      ExpectedInTwo(rows, mid, Members(first), Members(rest), asset, worth, k);
    }
  }

  /** However many times the job throws and wherever, the run that gets through leaves every account with the balances
      of one uninterrupted run. */
  lemma {:induction false} RetriesAreOneRun(rows: Rows, attempts: seq<Attempt>, asset: AssetId, worth: Valuation)
    requires NonNegative(rows) && NeverNegative(worth)
    requires attempts != [] && AreAttempts(rows, attempts, asset, worth)
    requires var last := attempts[|attempts| - 1]; last.reached == |last.holders|
    ensures forall k :: RowAt(AfterAttempts(rows, attempts, asset, worth), k)
                     == RowAt(Payouts(rows, attempts[0].holders, asset, worth), k)
    decreases |attempts|
  {
    var users, stop := attempts[0].holders, attempts[0].reached;
    var mid := AfterAttempt(rows, attempts[0], asset, worth);
    if |attempts| == 1 {
      assert users[..stop] == users;
    } else {
      PayoutsNonNegative(rows, users[..stop], asset, worth);
      RetriesAreOneRun(mid, attempts[1..], asset, worth);
      ResumedIsUninterrupted(rows, users, asset, worth, stop, attempts[1].holders);
    }
  }

  /** A holder's transaction moves the asset out and its value in. */
  lemma PayHolderMoves(rows: Rows, user: UserId, asset: AssetId, worth: Valuation, held: real)
    requires held == HeldBy(rows, user, asset) && held > 0.0
    ensures var after := PayHolder(rows, user, asset, worth);
            && Total(after, None) == Total(rows, None) + worth(held)
            && Total(after, Some(asset)) == Total(rows, Some(asset)) - held
  {
    var cash := RowAt(rows, Cash(user));
    var paid := Row(cash.available + worth(held), cash.locked);
    var mid := rows[Cash(user) := paid];
    assert RowAt(mid, Holding(user, asset)) == RowAt(rows, Holding(user, asset));
    TotalPut(rows, Cash(user), paid, None);
    TotalPut(rows, Cash(user), paid, Some(asset));
    TotalPut(mid, Holding(user, asset), Row(0.0, 0.0), None);
    TotalPut(mid, Holding(user, asset), Row(0.0, 0.0), Some(asset));
  }

  lemma PaidHolderTotals(rows: Rows, user: UserId, asset: AssetId, worth: Valuation, held: real)
    requires Linear(worth) && held == HeldBy(rows, user, asset) && held > 0.0
    ensures Wealth(PayHolder(rows, user, asset, worth), asset, worth) == Wealth(rows, asset, worth)
  {
    PayHolderMoves(rows, user, asset, worth, held);
  }

  lemma UnpaidHolder(rows: Rows, user: UserId, asset: AssetId, worth: Valuation)
    requires HeldBy(rows, user, asset) <= 0.0
    ensures PayHolder(rows, user, asset, worth) == rows
  {
  }

  /** Cash and asset together, at the liquidation price, are worth the same after each payout. */
  lemma PayHolderTotals(rows: Rows, user: UserId, asset: AssetId, worth: Valuation, after: Rows)
    requires Linear(worth) && after == PayHolder(rows, user, asset, worth)
    ensures Wealth(after, asset, worth) == Wealth(rows, asset, worth)
  {
    if HeldBy(rows, user, asset) > 0.0 {
      PaidHolderTotals(rows, user, asset, worth, HeldBy(rows, user, asset));
    } else {
      UnpaidHolder(rows, user, asset, worth);
    }
  }

  lemma {:induction false} PayoutsTotals(rows: Rows, users: seq<UserId>, asset: AssetId, worth: Valuation)
    requires Linear(worth)
    ensures var after := Payouts(rows, users, asset, worth);
            Wealth(after, asset, worth) == Wealth(rows, asset, worth)
  {
    if users != [] {
      PayoutsTotals(rows, users[..|users| - 1], asset, worth);
      PayHolderTotals(Payouts(rows, users[..|users| - 1], asset, worth), users[|users| - 1], asset, worth,
                      Payouts(rows, users, asset, worth));
    }
  }

  lemma {:induction false} NothingHeld(rows: Rows, asset: AssetId)
    requires forall k :: k in rows && k.asset == Some(asset) ==> rows[k].available + rows[k].locked == 0.0
    ensures Total(rows, Some(asset)) == 0.0
    decreases |rows|
  {
    if rows != map[] {
      assert rows.Keys != {};
      var k :| k in rows;
      SumMapRemove(rows, k, Worth(Some(asset)));
      NothingHeld(rows - {k}, asset);
    }
  }

  lemma NothingLeft(rows: Rows, users: seq<UserId>, asset: AssetId, worth: Valuation)
    requires NonNegative(rows) && AreHolders(rows, users, asset)
    ensures Total(Payouts(rows, users, asset, worth), Some(asset)) == 0.0
  {
    var after := Payouts(rows, users, asset, worth);
    PayoutsAreExpected(rows, users, asset, worth);
    forall k | k in after && k.asset == Some(asset)
      ensures after[k].available + after[k].locked == 0.0
    {
      assert RowAt(after, k) == Expected(rows, Members(users), asset, worth, k);
      assert k == Holding(k.user, asset);
      assert k.user in users <==> Holds(rows, k.user, asset);
    }
    NothingHeld(after, asset);
  }

  /** A complete payout leaves none of the asset, and adds exactly its value at the liquidation price to the cash. */
  lemma LiquidationConserves(rows: Rows, users: seq<UserId>, asset: AssetId, price: real)
    requires NonNegative(rows) && price >= 0.0 && AreHolders(rows, users, asset)
    ensures var after := Payouts(rows, users, asset, AtPrice(price));
            && Total(after, Some(asset)) == 0.0
            && Total(after, None) == Total(rows, None) + Pay(Total(rows, Some(asset)), price)
  {
    var worth := AtPrice(price);
    AtPriceIsLinear(price);
    PayoutsTotals(rows, users, asset, worth);
    NothingLeft(rows, users, asset, worth);
    assert worth(0.0) == 0.0;
    assert worth(Total(rows, Some(asset))) == Pay(Total(rows, Some(asset)), price);
  }
}

/** What a payout does to the funds that live orders and unsettled trades lay claim to. */
module LiquidationCoverage {
  import opened Common
  import opened Balances
  import opened Exchange
  import opened ExchangeSafety
  import opened Liquidation
  import opened LiquidationSafety

  /** Nothing lays claim to a user's holding of the asset. */
  ghost predicate Unclaimed(s: State, user: UserId, asset: AssetId) {
    Claims(s, Holding(user, asset)) == 0.0
  }

  lemma LockedAfter(s: State, users: seq<UserId>, asset: AssetId, worth: Valuation, k: Account)
    requires Safe(s) && Distinct(users) && forall u: UserId :: u in users ==> Holds(s.rows, u, asset)
    ensures Locked(Payouts(s.rows, users, asset, worth), k)
         == if k.user in users && k.asset == Some(asset) then 0.0 else Locked(s.rows, k)
  {
    PayoutsAreExpected(s.rows, users, asset, worth);
    assert RowAt(Payouts(s.rows, users, asset, worth), k) == Expected(s.rows, Members(users), asset, worth, k);
  }

  /** A payout leaves the locked pockets covered if and only if no holder it pays still has the asset claimed by a live
      order or an unsettled trade. */
  lemma PayoutCoveredIff(s: State, users: seq<UserId>, asset: AssetId, worth: Valuation)
    requires Safe(s) && Distinct(users) && forall u: UserId :: u in users ==> Holds(s.rows, u, asset)
    ensures Covered(s.(rows := Payouts(s.rows, users, asset, worth)))
       <==> forall u: UserId :: u in users ==> Unclaimed(s, u, asset)
  {
    var after := s.(rows := Payouts(s.rows, users, asset, worth));
    assert forall k :: Claims(after, k) == Claims(s, k);
    forall k
      ensures Locked(after.rows, k) == if k.user in users && k.asset == Some(asset) then 0.0 else Claims(s, k)
    {
      LockedAfter(s, users, asset, worth, k);
    }
    if Covered(after) {
      forall u: UserId | u in users
        ensures Unclaimed(s, u, asset)
      {
        assert Locked(after.rows, Holding(u, asset)) == Claims(after, Holding(u, asset));
      }
    }
    if forall u: UserId :: u in users ==> Unclaimed(s, u, asset) {
      forall k
        ensures Locked(after.rows, k) == Claims(after, k)
      {
        if k.user in users && k.asset == Some(asset) {
          assert k == Holding(k.user, asset) && Unclaimed(s, k.user, asset);
        }
      }
    }
  }

  /** Paying out the owner of a live sale of the asset always leaves it uncovered. */
  lemma LiveSaleIsUncovered(s: State, users: seq<UserId>, asset: AssetId, worth: Valuation, id: OrderId)
    requires Safe(s) && Distinct(users) && forall u: UserId :: u in users ==> Holds(s.rows, u, asset)
    requires id < |s.orders| && Live(s.orders[id]) && s.orders[id].side.Sell? && s.orders[id].asset == asset
    requires s.orders[id].user in users
    ensures !Covered(s.(rows := Payouts(s.rows, users, asset, worth)))
  {
    PayoutCoveredIff(s, users, asset, worth);
    OwnClaimLocked(s, id);
    assert !Unclaimed(s, s.orders[id].user, asset);
  }
}

/** The job that runs the payout. */
module LiquidationJob {
  import opened Common
  import opened Balances
  import opened Liquidation

  datatype TradingStatus = Open | Paused | Closed

  /** What becomes of the on-chain burn: submitting it throws, the transaction reverts, or it goes through. */
  datatype Burn = Throws | Reverts | Succeeds

  datatype BurnError = ContractMissing | CallFailed | BurnFailed | PayoutInterrupted

  function AtMost(a: nat, b: nat): nat {
    if a < b then a else b
  }

  class AssetBlockchainProcessor {
    const balances: BalancesService
    var inactive: set<AssetId>
    var trading: map<AssetId, TradingStatus>

    constructor (balances: BalancesService)
      ensures this.balances == balances
    {
      this.balances := balances;
      inactive, trading := {}, map[];
    }

    /** One holder's transaction. */
    method PayOut(user: UserId, asset: AssetId, price: real)
      modifies balances
      ensures balances.rows == PayHolder(old(balances.rows), user, asset, AtPrice(price))
    {
      var holder := Holding(user, asset);
      var row := RowAt(balances.rows, holder);
      var totalHeld := row.available + row.locked;
      if totalHeld <= 0.0 {
        return;
      }
      var payout := Pay(totalHeld, price);
      var cash := RowAt(balances.rows, Cash(user));
      balances.rows := balances.rows[Cash(user) := Row(cash.available + payout, cash.locked)];
      balances.rows := balances.rows[holder := Row(0.0, 0.0)];
    }

    /** The payout loop, which throws before its holder number throwsAt. */
    method PayAll(asset: AssetId, price: real, holders: seq<UserId>, throwsAt: nat) returns (paid: nat)
      modifies balances
      ensures paid == AtMost(throwsAt, |holders|)
      ensures balances.rows == Payouts(old(balances.rows), holders[..paid], asset, AtPrice(price))
    {
      ghost var before := balances.rows;
      ghost var done := [];
      paid := 0;
      while paid < |holders| && paid < throwsAt
        invariant paid <= |holders| && paid <= throwsAt
        invariant done == holders[..paid]
        invariant balances.rows == Payouts(before, done, asset, AtPrice(price))
      {
        PayOut(holders[paid], asset, price);
        PayoutsNext(before, done, holders[paid], asset, AtPrice(price));
        done := done + [holders[paid]];
        paid := paid + 1;
      }
    }

    /** The burn job: without a contract, or when the call throws, nothing happens; otherwise the asset is paused, and
        once the burn has succeeded the holders are paid one by one. The job may throw before any of them, and is then
        run again from the start. Only a job that gets through closes the asset. */
    method ProcessLiquidationBurn(
      asset: AssetId, price: real, hasContract: bool, burn: Burn, holders: seq<UserId>, throwsAt: nat)
      returns (r: Result<(), BurnError>)
      modifies this, balances
      ensures r == if !hasContract then Err(ContractMissing)
                   else match burn
                        case Throws => Err(CallFailed)
                        case Reverts => Err(BurnFailed)
                        case Succeeds => if throwsAt < |holders| then Err(PayoutInterrupted) else Ok(())
      ensures !hasContract || burn.Throws? ==>
                balances.rows == old(balances.rows) && inactive == old(inactive) && trading == old(trading)
      ensures hasContract && !burn.Throws? ==>
                && inactive == old(inactive) + {asset}
                && trading == old(trading)[asset := if r.Ok? then Closed else Paused]
                && var paid := if burn.Succeeds? then AtMost(throwsAt, |holders|) else 0;
                   balances.rows == Payouts(old(balances.rows), holders[..paid], asset, AtPrice(price))
    {
      if !hasContract {
        return Err(ContractMissing);
      }
      if burn.Throws? {
        return Err(CallFailed);
      }
      inactive, trading := inactive + {asset}, trading[asset := Paused];
      if burn.Reverts? {
        return Err(BurnFailed);
      }
      var paid := PayAll(asset, price, holders, throwsAt);
      if paid < |holders| {
        return Err(PayoutInterrupted);
      }
      trading := trading[asset := Closed];
      return Ok(());
    }
  }
}
