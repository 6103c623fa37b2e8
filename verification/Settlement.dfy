/** The settlement cron: grouping partitions the picked trades, and no trade is ever unlocked twice or too early. */
module SettlementSafety {
  import opened Common
  import opened Sums
  import opened Balances
  import opened Exchange
  import opened ExchangeSafety
  import opened ExchangeSteps

  // ----- Grouping

  /** The picked trades of one asset, in the order they were picked. */
  function OfAsset(trades: seq<Trade>, picked: seq<TradeId>, asset: AssetId): seq<TradeId>
    requires Within(picked, |trades|)
  {
    if picked == [] then []
    else
      var n := |picked| - 1;
      OfAsset(trades, picked[..n], asset) + if trades[picked[n]].asset == asset then [picked[n]] else []
  }

  lemma {:induction false} OfAssetMembers(trades: seq<Trade>, picked: seq<TradeId>, asset: AssetId)
    requires Within(picked, |trades|)
    ensures var ids := OfAsset(trades, picked, asset);
            && Within(ids, |trades|)
            && (forall t: nat :: t in ids <==> t in picked && trades[t].asset == asset)
            && (Distinct(picked) ==> Distinct(ids))
  {
    if picked != [] {
      var n := |picked| - 1;
      OfAssetMembers(trades, picked[..n], asset);
      var ids := OfAsset(trades, picked, asset);
      assert picked == picked[..n] + [picked[n]];
      assert forall k :: 0 <= k < |ids| ==> ids[k] in ids;
      if Distinct(picked) {
        assert picked[n] !in picked[..n];
      }
    }
  }

  /** One group per asset, each holding all the picked trades of its asset in order. */
  ghost predicate Partitioned(trades: seq<Trade>, picked: seq<TradeId>, groups: seq<Group>)
    requires Within(picked, |trades|)
  {
    && (forall i, j :: 0 <= i < j < |groups| ==> groups[i].asset != groups[j].asset)
    && (forall i :: 0 <= i < |groups| ==>
          groups[i].trades == OfAsset(trades, picked, groups[i].asset) && groups[i].trades != [])
    && (forall t: nat :: t in picked ==> exists i :: 0 <= i < |groups| && groups[i].asset == trades[t].asset)
  }

  lemma {:induction false} AddToGroupEffect(groups: seq<Group>, asset: AssetId, t: TradeId)
    requires forall i, j :: 0 <= i < j < |groups| ==> groups[i].asset != groups[j].asset
    ensures var more := AddToGroup(groups, asset, t);
            && (forall i, j :: 0 <= i < j < |more| ==> more[i].asset != more[j].asset)
            && |groups| <= |more|
            && (forall i :: 0 <= i < |groups| ==>
                  more[i] == if groups[i].asset == asset
                             then groups[i].(trades := groups[i].trades + [t])
                             else groups[i])
            && (forall i :: |groups| <= i < |more| ==>
                  && more[i] == Group(asset, [t])
                  && forall j :: 0 <= j < |groups| ==> groups[j].asset != asset)
            && exists i :: 0 <= i < |more| && more[i].asset == asset
  {
    if groups == [] {
      assert AddToGroup(groups, asset, t)[0].asset == asset;
    } else if groups[0].asset == asset {
      assert AddToGroup(groups, asset, t)[0].asset == asset;
    } else {
      AddToGroupEffect(groups[1..], asset, t);
      var rest := AddToGroup(groups[1..], asset, t);
      var i :| 0 <= i < |rest| && rest[i].asset == asset;
      assert AddToGroup(groups, asset, t)[i + 1].asset == asset;
    }
  }

  lemma PartitionedStep(trades: seq<Trade>, before: seq<TradeId>, t: TradeId, groups: seq<Group>)
    requires Within(before, |trades|) && t < |trades| && Partitioned(trades, before, groups)
    ensures Within(before + [t], |trades|)
    ensures Partitioned(trades, before + [t], AddToGroup(groups, trades[t].asset, t))
  {
    AddToGroupEffect(groups, trades[t].asset, t);
    GroupsAreWhole(trades, before, t, groups);
    AllAreGrouped(trades, before, t, groups);
  }

  lemma GroupsAreWhole(trades: seq<Trade>, before: seq<TradeId>, t: TradeId, groups: seq<Group>)
    requires Within(before, |trades|) && t < |trades| && Partitioned(trades, before, groups)
    ensures Within(before + [t], |trades|)
    ensures var more := AddToGroup(groups, trades[t].asset, t);
            forall i :: 0 <= i < |more| ==>
              more[i].trades == OfAsset(trades, before + [t], more[i].asset) && more[i].trades != []
  {
    var picked, asset := before + [t], trades[t].asset;
    var more := AddToGroup(groups, asset, t);
    AddToGroupEffect(groups, asset, t);
    forall i | 0 <= i < |more|
      ensures more[i].trades == OfAsset(trades, picked, more[i].asset) && more[i].trades != []
    {
      assert picked[..|before|] == before;
      if i >= |groups| {
        assert more[i] == Group(asset, [t]);
        NoneOfAsset(trades, before, groups, asset);
      }
    }
  }

  lemma AllAreGrouped(trades: seq<Trade>, before: seq<TradeId>, t: TradeId, groups: seq<Group>)
    requires Within(before, |trades|) && t < |trades| && Partitioned(trades, before, groups)
    ensures var more := AddToGroup(groups, trades[t].asset, t);
            forall u: nat :: u in before + [t] ==>
              u < |trades| && exists i :: 0 <= i < |more| && more[i].asset == trades[u].asset
  {
    var more := AddToGroup(groups, trades[t].asset, t);
    AddToGroupEffect(groups, trades[t].asset, t);
    forall u: nat | u in before + [t]
      ensures u < |trades| && exists i :: 0 <= i < |more| && more[i].asset == trades[u].asset
    {
      if u in before {
        var i :| 0 <= i < |groups| && groups[i].asset == trades[u].asset;
        assert more[i].asset == trades[u].asset;
      }
    }
  }

  /** Grouping loses no picked trade, repeats none, and keeps their order. */
  lemma {:induction false} GroupingPartitions(trades: seq<Trade>, picked: seq<TradeId>)
    requires Within(picked, |trades|)
    ensures Partitioned(trades, picked, GroupByAsset(trades, picked))
  {
    if picked != [] {
      var n := |picked| - 1;
      GroupingPartitions(trades, picked[..n]);
      PartitionedStep(trades, picked[..n], picked[n], GroupByAsset(trades, picked[..n]));
      assert picked == picked[..n] + [picked[n]];
    }
  }

  lemma NoneOfAsset(trades: seq<Trade>, picked: seq<TradeId>, groups: seq<Group>, asset: AssetId)
    requires Within(picked, |trades|) && Partitioned(trades, picked, groups)
    requires forall j :: 0 <= j < |groups| ==> groups[j].asset != asset
    ensures OfAsset(trades, picked, asset) == []
  {
    var ids := OfAsset(trades, picked, asset);
    assert ids != [] ==> ids[0] in ids;
    OfAssetMembers(trades, picked, asset);
  }

  // ----- Unlocking

  lemma {:induction false} ReleasesOfTwo(released: seq<Release>, a: Release, b: Release, t: TradeId)
    requires a.trade == b.trade
    ensures ReleasesOf(released + [a] + [b], t)
         == if a.trade == t then ReleasesOf(released, t) + [a, b] else ReleasesOf(released, t)
  {
    assert (released + [a] + [b])[..|released| + 1] == released + [a];
    assert (released + [a])[..|released|] == released;
  }

  /** The tables once a trade's two unlocks are noted and it is marked settled. */
  function MarkedSettled(s: State, t: TradeId, rows: Rows): State
    requires t < |s.trades|
  {
    s.(rows := rows, trades := s.trades[t := s.trades[t].(status := Settled)],
       released := s.released + [Owed(t, s.trades[t])[0]] + [Owed(t, s.trades[t])[1]])
  }

  lemma MarkedSettledClaims(s: State, t: TradeId, rows: Rows)
    requires t < |s.trades| && s.trades[t].status != Settled
    ensures forall k :: Claims(MarkedSettled(s, t, rows), k) == Claims(s, k) - TradeLock(k)(s.trades[t])
  {
    forall k
      ensures Claims(MarkedSettled(s, t, rows), k) == Claims(s, k) - TradeLock(k)(s.trades[t])
    {
      SumUpdate(s.trades, t, s.trades[t].(status := Settled), TradeLock(k));
    }
  }

  lemma MarkedSettledOnce(s: State, t: TradeId, rows: Rows)
    requires SettledOnce(s) && t < |s.trades| && s.trades[t].status != Settled
    ensures SettledOnce(MarkedSettled(s, t, rows))
  {
    var after, trade := MarkedSettled(s, t, rows), s.trades[t];
    forall u: nat | u < |s.trades|
      ensures ReleasesOf(after.released, u)
           == if after.trades[u].status == Settled then Owed(u, after.trades[u]) else []
    {
      ReleasesOfTwo(s.released, Owed(t, trade)[0], Owed(t, trade)[1], u);
    }
  }

  lemma MarkedSettledSound(s: State, t: TradeId, rows: Rows)
    requires Sound(s) && t < |s.trades| && s.trades[t].status != Settled && NonNegative(rows)
    ensures Sound(MarkedSettled(s, t, rows))
  {
    MarkedSettledOnce(s, t, rows);
    SettledFills(s.trades, t);
  }

  lemma SettledFills(trades: seq<Trade>, t: TradeId)
    requires t < |trades|
    ensures forall i :: Sum(trades[t := trades[t].(status := Settled)], TradedBy(i)) == Sum(trades, TradedBy(i))
  {
    forall i
      ensures Sum(trades[t := trades[t].(status := Settled)], TradedBy(i)) == Sum(trades, TradedBy(i))
    {
      SumUpdate(trades, t, trades[t].(status := Settled), TradedBy(i));
    }
  }

  /** A trade's two claims are locked, so both of its unlocks go through. */
  lemma UnlockOne(s: State, t: TradeId) returns (rows: Rows)
    requires Safe(s) && t < |s.trades| && s.trades[t].status != Settled
    ensures var trade := s.trades[t];
            var first := Transferred(s.rows, Holding(trade.buyer, trade.asset), trade.quantity, LockedToAvailable);
            && first.Ok?
            && Transferred(first.value, Cash(trade.seller), Pay(trade.quantity, trade.price), LockedToAvailable)
               == Ok(rows)
    ensures NonNegative(rows) && SameTotals(s.rows, rows)
    ensures forall k :: Locked(rows, k) == Locked(s.rows, k) - TradeLock(k)(s.trades[t])
  {
    var trade := s.trades[t];
    var quote := Pay(trade.quantity, trade.price);
    var holding, cash := Holding(trade.buyer, trade.asset), Cash(trade.seller);
    PayPositive(trade.quantity, trade.price);
    TradeClaimLocked(s, t, holding);
    TradeClaimLocked(s, t, cash);
    TransferEffect(s.rows, holding, trade.quantity, LockedToAvailable);
    rows := Transferred(s.rows, holding, trade.quantity, LockedToAvailable).value;
    TransferEffect(rows, cash, quote, LockedToAvailable);
    rows := Transferred(rows, cash, quote, LockedToAvailable).value;
  }

  /** Unlocking a trade and marking it settled balance each other. */
  lemma SettleOne(s: State, t: TradeId, rows: Rows)
    requires Safe(s) && t < |s.trades| && s.trades[t].status != Settled && NonNegative(rows)
    requires forall k :: Locked(rows, k) == Locked(s.rows, k) - TradeLock(k)(s.trades[t])
    ensures Safe(MarkedSettled(s, t, rows))
  {
    MarkedSettledClaims(s, t, rows);
    MarkedSettledSound(s, t, rows);
  }

  lemma TradeClaimLocked(s: State, t: TradeId, k: Account)
    requires Safe(s) && t < |s.trades|
    ensures Locked(s.rows, k) >= TradeLock(k)(s.trades[t])
  {
    ClaimsNonNegative(s, k);
    SumAtLeast(s.trades, t, TradeLock(k));
    SumNonNegative(s.orders, OrderLock(k));
  }

  ghost predicate NoneSettled(trades: seq<Trade>, ids: seq<TradeId>)
    requires Within(ids, |trades|)
  {
    forall k :: 0 <= k < |ids| ==> trades[ids[k]].status != Settled
  }

  /** The same trades, whatever their statuses. */
  ghost predicate SameButStatus(trades: seq<Trade>, others: seq<Trade>) {
    && |trades| == |others|
    && forall t :: 0 <= t < |trades| ==> trades[t] == others[t].(status := trades[t].status)
  }

  /** The unlock loop never stops half way: it unlocks each eligible trade once, and marking them all settled
      afterwards balances it. */
  lemma {:induction false} UnlockingSafe(s: State, trades: seq<Trade>, ids: seq<TradeId>)
    requires Safe(s) && SameButStatus(trades, s.trades)
    requires Within(ids, |trades|) && Distinct(ids) && NoneSettled(s.trades, ids)
    ensures var unlocking := UnlockTrades(s.rows, s.released, trades, ids);
            var after := s.(rows := unlocking.rows, released := unlocking.released,
                            trades := Mark(s.trades, ids, Settled));
            unlocking.done && Safe(after) && SameTotals(s.rows, after.rows)
    decreases |ids|
  {
    if ids != [] {
      assert trades[ids[0]] == s.trades[ids[0]].(status := trades[ids[0]].status);
      var rows := UnlockOne(s, ids[0]);
      SettleOne(s, ids[0], rows);
      UnlockingSafe(MarkedSettled(s, ids[0], rows), trades, ids[1..]);
    }
  }

  /** Moving trades between unsettled statuses changes nobody's claims. */
  lemma RemarkSafe(s: State, trades: seq<Trade>)
    requires Safe(s) && SameButStatus(trades, s.trades)
    requires forall t :: 0 <= t < |trades| ==> (trades[t].status == Settled <==> s.trades[t].status == Settled)
    ensures Safe(s.(trades := trades))
  {
    forall k {
      SumSame(s.trades, trades, TradeLock(k));
    }
    forall i {
      SumSame(s.trades, trades, TradedBy(i));
    }
  }

  // ----- One group, one tick

  /** Some trade of a group can be sent on chain: both its parties have wallets. */
  ghost predicate AnySent(trades: seq<Trade>, ids: seq<TradeId>, wallets: set<UserId>) {
    exists u: nat :: u < |trades| && u in ids && trades[u].buyer in wallets && trades[u].seller in wallets
  }

  /** The status a tick gives a trade. Without a contract for its asset it keeps the one it has; when nothing of its
      asset can be sent it is declined; when the call fails so are all the picked trades of the asset, declined ones
      included; otherwise it is settled if both its parties have wallets, and declined if not. */
  ghost function Verdict(trade: Trade, asset: AssetId, tick: Tick, anySent: bool): Settlement {
    if asset !in tick.contracts then trade.status
    else if !anySent then Declined
    else if asset !in tick.succeeds then Failed
    else if trade.buyer in tick.wallets && trade.seller in tick.wallets then Settled
    else Declined
  }

  /** What a tick does to the trades of a group. */
  ghost predicate GroupOutcome(before: seq<Trade>, after: seq<Trade>, tick: Tick, group: Group) {
    && |after| == |before|
    && (forall t: nat :: t < |before| && t !in group.trades ==> after[t] == before[t])
    && (forall t: nat :: t < |before| && t in group.trades ==>
          after[t] == before[t].(status :=
            Verdict(before[t], group.asset, tick, AnySent(before, group.trades, tick.wallets))))
  }

  lemma {:induction false} WithWalletsDistinct(trades: seq<Trade>, ids: seq<TradeId>, wallets: set<UserId>, both: bool)
    requires Within(ids, |trades|) && Distinct(ids)
    ensures Distinct(WithWallets(trades, ids, wallets, both))
  {
    if ids != [] {
      WithWalletsDistinct(trades, ids[1..], wallets, both);
      assert ids[0] !in ids[1..];
    }
  }

  /** The trades table after a group, whose unlock loop runs to its end. */
  function GroupMarked(trades: seq<Trade>, tick: Tick, group: Group): (marked: seq<Trade>)
    requires Within(group.trades, |trades|)
  {
    var declined := WithWallets(trades, group.trades, tick.wallets, false);
    var eligible := WithWallets(trades, group.trades, tick.wallets, true);
    var marked := Mark(trades, declined, Declined);
    if group.asset !in tick.contracts then trades
    else if eligible == [] then marked
    else
      var processing := Mark(marked, eligible, Processing);
      if group.asset !in tick.succeeds
      then Mark(processing, group.trades, Failed)
      else Mark(processing, eligible, Settled)
  }

  lemma EligibleAreSent(trades: seq<Trade>, ids: seq<TradeId>, wallets: set<UserId>)
    requires Within(ids, |trades|)
    ensures WithWallets(trades, ids, wallets, true) != [] <==> AnySent(trades, ids, wallets)
  {
    var eligible := WithWallets(trades, ids, wallets, true);
    if eligible != [] {
      assert eligible[0] in eligible;
    }
  }

  lemma GroupMarkedOutcome(trades: seq<Trade>, tick: Tick, group: Group)
    requires Within(group.trades, |trades|)
    ensures GroupOutcome(trades, GroupMarked(trades, tick, group), tick, group)
  {
    EligibleAreSent(trades, group.trades, tick.wallets);
  }

  lemma MarkSafe(s: State, ids: seq<TradeId>, status: Settlement)
    requires Safe(s) && Within(ids, |s.trades|) && NoneSettled(s.trades, ids) && status != Settled
    ensures Safe(s.(trades := Mark(s.trades, ids, status)))
  {
    assert forall t: nat :: t in ids ==> s.trades[t].status != Settled;
    RemarkSafe(s, Mark(s.trades, ids, status));
  }

  lemma ChosenNoneSettled(trades: seq<Trade>, ids: seq<TradeId>, chosen: seq<TradeId>)
    requires Within(ids, |trades|) && NoneSettled(trades, ids)
    requires Within(chosen, |trades|) && forall t: nat :: t in chosen ==> t in ids
    ensures NoneSettled(trades, chosen)
  {
    forall k | 0 <= k < |chosen|
      ensures trades[chosen[k]].status != Settled
    {
      assert chosen[k] in chosen;
    }
  }

  lemma MarkNoneSettled(trades: seq<Trade>, ids: seq<TradeId>, marked: seq<TradeId>, status: Settlement)
    requires Within(ids, |trades|) && NoneSettled(trades, ids) && Within(marked, |trades|) && status != Settled
    ensures NoneSettled(Mark(trades, marked, status), ids)
  {
  }

  /** Declined trades stay locked; the rest of the group is ready to be submitted. */
  lemma GroupReady(s: State, tick: Tick, group: Group) returns (ready: State, eligible: seq<TradeId>)
    requires Safe(s) && Within(group.trades, |s.trades|) && Distinct(group.trades)
    requires NoneSettled(s.trades, group.trades)
    ensures eligible == WithWallets(s.trades, group.trades, tick.wallets, true)
    ensures var declined := WithWallets(s.trades, group.trades, tick.wallets, false);
            ready == s.(trades := Mark(Mark(s.trades, declined, Declined), eligible, Processing))
    ensures Safe(ready) && NoneSettled(ready.trades, group.trades)
    ensures Distinct(eligible) && NoneSettled(ready.trades, eligible)
  {
    var declined := WithWallets(s.trades, group.trades, tick.wallets, false);
    eligible := WithWallets(s.trades, group.trades, tick.wallets, true);
    ChosenNoneSettled(s.trades, group.trades, declined);
    ChosenNoneSettled(s.trades, group.trades, eligible);
    MarkSafe(s, declined, Declined);
    var marked := s.(trades := Mark(s.trades, declined, Declined));
    MarkNoneSettled(s.trades, eligible, declined, Declined);
    MarkNoneSettled(s.trades, group.trades, declined, Declined);
    MarkSafe(marked, eligible, Processing);
    MarkNoneSettled(marked.trades, eligible, eligible, Processing);
    MarkNoneSettled(marked.trades, group.trades, eligible, Processing);
    ready := marked.(trades := Mark(marked.trades, eligible, Processing));
    WithWalletsDistinct(s.trades, group.trades, tick.wallets, true);
  }

  lemma SettleGroupMarks(s: State, tick: Tick, group: Group)
    requires Safe(s) && Within(group.trades, |s.trades|) && Distinct(group.trades)
    requires NoneSettled(s.trades, group.trades)
    ensures var after := SettleGroup(s, tick, group);
            StillSafe(s, after) && after.orders == s.orders && after.trades == GroupMarked(s.trades, tick, group)
  {
    if group.asset in tick.contracts {
      var ready, eligible := GroupReady(s, tick, group);
      if eligible == [] {
        assert SettleGroup(s, tick, group) == ready;
      } else if group.asset !in tick.succeeds {
        MarkSafe(ready, group.trades, Failed);
        assert SettleGroup(s, tick, group) == ready.(trades := Mark(ready.trades, group.trades, Failed));
      } else {
        UnlockingSafe(ready, ready.trades, eligible);
        var unlocking := UnlockTrades(s.rows, s.released, ready.trades, eligible);
        assert SettleGroup(s, tick, group) == ready.(rows := unlocking.rows, released := unlocking.released,
                                                     trades := Mark(ready.trades, eligible, Settled));
      }
    }
  }

  /** One asset's group, whatever its on-chain call does, keeps the exchange safe. */
  lemma SettleGroupSafe(s: State, tick: Tick, group: Group)
    requires Safe(s) && Within(group.trades, |s.trades|) && Distinct(group.trades)
    requires NoneSettled(s.trades, group.trades)
    ensures var after := SettleGroup(s, tick, group);
            StillSafe(s, after) && after.orders == s.orders && GroupOutcome(s.trades, after.trades, tick, group)
  {
    SettleGroupMarks(s, tick, group);
    GroupMarkedOutcome(s.trades, tick, group);
  }

  /** The groups a tick still has to go through. */
  ghost predicate ToSettle(s: State, groups: seq<Group>) {
    && GroupsWithin(groups, |s.trades|)
    && (forall i :: 0 <= i < |groups| ==> Distinct(groups[i].trades) && NoneSettled(s.trades, groups[i].trades))
    && (forall i, j, t: nat :: 0 <= i < j < |groups| && t in groups[i].trades ==> t !in groups[j].trades)
  }

  lemma ToSettleRest(s: State, tick: Tick, groups: seq<Group>, after: State)
    requires ToSettle(s, groups) && groups != []
    requires |after.trades| == |s.trades|
    requires forall t: nat :: t < |s.trades| && t !in groups[0].trades ==> after.trades[t] == s.trades[t]
    ensures ToSettle(after, groups[1..])
  {
    forall i | 1 <= i < |groups|
      ensures NoneSettled(after.trades, groups[i].trades)
    {
      forall k | 0 <= k < |groups[i].trades|
        ensures after.trades[groups[i].trades[k]].status != Settled
      {
        assert groups[i].trades[k] in groups[i].trades;
      }
    }
  }

  /** What a tick makes of each trade in its groups; other trades are not touched. */
  ghost predicate TickOutcome(before: seq<Trade>, after: seq<Trade>, tick: Tick, groups: seq<Group>) {
    && |after| == |before|
    && (forall t: nat :: t < |before| && (forall i :: 0 <= i < |groups| ==> t !in groups[i].trades) ==>
          after[t] == before[t])
    && (forall i, t: nat :: 0 <= i < |groups| && t < |before| && t in groups[i].trades ==>
          after[t] == before[t].(status :=
            Verdict(before[t], groups[i].asset, tick, AnySent(before, groups[i].trades, tick.wallets))))
  }

  /** What can be sent of a group depends on its own trades only. */
  lemma SameSent(before: seq<Trade>, mid: seq<Trade>, wallets: set<UserId>, ids: seq<TradeId>)
    requires |mid| == |before|
    requires forall u: nat :: u < |before| && u in ids ==> mid[u] == before[u]
    ensures AnySent(mid, ids, wallets) <==> AnySent(before, ids, wallets)
  {
  }

  lemma TickOutcomeByHead(before: seq<Trade>, mid: seq<Trade>, after: seq<Trade>, tick: Tick, groups: seq<Group>)
    requires groups != []
    requires forall i, j, t: nat :: 0 <= i < j < |groups| && t in groups[i].trades ==> t !in groups[j].trades
    requires GroupOutcome(before, mid, tick, groups[0])
    requires TickOutcome(mid, after, tick, groups[1..])
    ensures TickOutcome(before, after, tick, groups)
  {
    forall i, t: nat | 0 <= i < |groups| && t < |before| && t in groups[i].trades
      ensures after[t] == before[t].(status :=
                Verdict(before[t], groups[i].asset, tick, AnySent(before, groups[i].trades, tick.wallets)))
    {
      if i > 0 {
        assert groups[1..][i - 1] == groups[i];
        SameSent(before, mid, tick.wallets, groups[i].trades);
      } else {
        assert forall j :: 0 <= j < |groups[1..]| ==> t !in groups[1..][j].trades;
      }
    }
    forall t: nat | t < |before| && forall i :: 0 <= i < |groups| ==> t !in groups[i].trades
      ensures after[t] == before[t]
    {
      assert t !in groups[0].trades;
    }
  }

  lemma {:induction false} SettleGroupsSafe(s: State, tick: Tick, groups: seq<Group>)
    requires Safe(s) && ToSettle(s, groups)
    ensures var after := SettleGroups(s, tick, groups);
            StillSafe(s, after) && after.orders == s.orders && TickOutcome(s.trades, after.trades, tick, groups)
    decreases |groups|
  {
    if groups != [] {
      var mid := SettleGroup(s, tick, groups[0]);
      SettleGroupSafe(s, tick, groups[0]);
      ToSettleRest(s, tick, groups, mid);
      SettleGroupsSafe(mid, tick, groups[1..]);
      TickOutcomeByHead(s.trades, mid.trades, SettleGroups(mid, tick, groups[1..]).trades, tick, groups);
    }
  }

  lemma PickedToSettle(s: State, tick: Tick)
    requires Picks(s.trades, tick)
    ensures ToSettle(s, GroupByAsset(s.trades, tick.picked))
  {
    var groups := GroupByAsset(s.trades, tick.picked);
    GroupingPartitions(s.trades, tick.picked);
    GroupMembers(s.trades, tick.picked);
    forall i | 0 <= i < |groups|
      ensures Distinct(groups[i].trades) && NoneSettled(s.trades, groups[i].trades)
      ensures forall t: nat :: t in groups[i].trades ==> s.trades[t].asset == groups[i].asset
    {
      OfAssetMembers(s.trades, tick.picked, groups[i].asset);
      forall k | 0 <= k < |groups[i].trades|
        ensures s.trades[groups[i].trades[k]].status != Settled
      {
        assert groups[i].trades[k] in groups[i].trades;
      }
    }
  }

  /** Some picked trade of the asset can be sent on chain. */
  ghost predicate AnyPickedSent(trades: seq<Trade>, tick: Tick, asset: AssetId) {
    exists u: nat :: u < |trades| && u in tick.picked && trades[u].asset == asset
                  && trades[u].buyer in tick.wallets && trades[u].seller in tick.wallets
  }

  /** What a tick makes of a picked trade. */
  ghost function Judged(trades: seq<Trade>, tick: Tick, t: TradeId): Trade
    requires t < |trades|
  {
    var sent := AnyPickedSent(trades, tick, trades[t].asset);
    trades[t].(status := Verdict(trades[t], trades[t].asset, tick, sent))
  }

  lemma SentOfAsset(trades: seq<Trade>, tick: Tick, asset: AssetId)
    requires Within(tick.picked, |trades|)
    ensures AnySent(trades, OfAsset(trades, tick.picked, asset), tick.wallets) <==> AnyPickedSent(trades, tick, asset)
  {
    OfAssetMembers(trades, tick.picked, asset);
  }

  lemma PickedIsJudged(before: seq<Trade>, after: seq<Trade>, tick: Tick, t: TradeId)
    requires Within(tick.picked, |before|) && t in tick.picked
    requires TickOutcome(before, after, tick, GroupByAsset(before, tick.picked))
    ensures t < |before| == |after| && after[t] == Judged(before, tick, t)
  {
    var groups := GroupByAsset(before, tick.picked);
    GroupingPartitions(before, tick.picked);
    OfAssetMembers(before, tick.picked, before[t].asset);
    SentOfAsset(before, tick, before[t].asset);
    var i :| 0 <= i < |groups| && groups[i].asset == before[t].asset;
  }

  lemma UnpickedStays(before: seq<Trade>, after: seq<Trade>, tick: Tick, t: TradeId)
    requires Within(tick.picked, |before|) && t < |before| && t !in tick.picked
    requires TickOutcome(before, after, tick, GroupByAsset(before, tick.picked))
    ensures |after| == |before| && after[t] == before[t]
  {
    var groups := GroupByAsset(before, tick.picked);
    GroupingPartitions(before, tick.picked);
    forall i | 0 <= i < |groups|
      ensures t !in groups[i].trades
    {
      OfAssetMembers(before, tick.picked, groups[i].asset);
    }
  }

  /** One tick of the cron, whatever its on-chain calls do. */
  lemma SettleTickSafe(s: State, tick: Tick)
    requires Safe(s)
    ensures var after := SettleTick(s, tick);
            && StillSafe(s, after) && after.orders == s.orders && |after.trades| == |s.trades|
            && forall t: nat :: t < |s.trades| ==>
                 after.trades[t] == if Picks(s.trades, tick) && t in tick.picked then Judged(s.trades, tick, t)
                                    else s.trades[t]
  {
    if Picks(s.trades, tick) {
      PickedToSettle(s, tick);
      SettleGroupsSafe(s, tick, GroupByAsset(s.trades, tick.picked));
      forall t: nat | t < |s.trades|
        ensures SettleTick(s, tick).trades[t] == if t in tick.picked then Judged(s.trades, tick, t) else s.trades[t]
      {
        if t in tick.picked {
          PickedIsJudged(s.trades, SettleTick(s, tick).trades, tick, t);
        } else {
          UnpickedStays(s.trades, SettleTick(s, tick).trades, tick, t);
        }
      }
    }
  }

  // ----- Trades over runs of ticks

  function Changed(before: seq<Trade>, after: seq<Trade>): set<TradeId>
    requires |before| == |after|
  {
    set t: nat | t < |after| && after[t] != before[t] :: t
  }

  /** The query returns at most a hundred different trades, each of them unsettled or failed, or processing and stale.
      */
  lemma QueryPicks(trades: seq<Trade>, tick: Tick)
    ensures Picks(trades, tick) <==>
              && |tick.picked| <= 100
              && (forall i, j :: 0 <= i < j < |tick.picked| ==> tick.picked[i] != tick.picked[j])
              && forall i :: 0 <= i < |tick.picked| ==>
                   && tick.picked[i] < |trades|
                   && match trades[tick.picked[i]].status
                      case Unsettled => true
                      case Failed => true
                      case Processing => tick.picked[i] in tick.stale
                      case Settled => false
                      case Declined => false
  {
  }

  lemma PickedAreWaiting(trades: seq<Trade>, tick: Tick, t: TradeId)
    requires Picks(trades, tick) && t < |trades| && t in tick.picked
    ensures trades[t].status !in {Settled, Declined}
  {
    var k :| 0 <= k < |tick.picked| && tick.picked[k] == t;
  }

  /** A tick changes nothing of a trade but its status, and nothing at all of a settled or a declined one. */
  lemma TickKeepsTrade(s: State, tick: Tick, t: TradeId)
    requires Safe(s) && t < |s.trades|
    ensures var after := SettleTick(s, tick).trades;
            && |after| == |s.trades|
            && after[t] == s.trades[t].(status := after[t].status)
            && (s.trades[t].status in {Settled, Declined} ==> after[t] == s.trades[t])
  {
    SettleTickSafe(s, tick);
    if Picks(s.trades, tick) && t in tick.picked {
      PickedAreWaiting(s.trades, tick, t);
    }
  }

  /** A tick changes the statuses of a hundred trades at most. */
  lemma TickIsBounded(s: State, tick: Tick)
    requires Safe(s)
    ensures var after := SettleTick(s, tick).trades;
            |after| == |s.trades| && |Changed(s.trades, after)| <= 100
  {
    SettleTickSafe(s, tick);
    var changed := Changed(s.trades, SettleTick(s, tick).trades);
    if Picks(s.trades, tick) {
      ManyAtMost(changed, tick.picked);
    } else {
      assert changed == {};
    }
  }

  lemma {:induction false} ManyAtMost(few: set<TradeId>, ids: seq<TradeId>)
    requires forall t :: t in few ==> t in ids
    ensures |few| <= |ids|
    decreases |ids|
  {
    if ids == [] {
      assert few == {};
    } else {
      ManyAtMost(few - {ids[0]}, ids[1..]);
      assert few <= few - {ids[0]} + {ids[0]};
    }
  }
}
