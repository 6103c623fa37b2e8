/** Settlement when the locked pockets do not cover the trades: when a group still goes through, and what it does when
    it does not. */
module UncoveredSettlement {
  import opened Common
  import opened Balances
  import opened Exchange
  import opened ExchangeSafety
  import opened SettlementSafety

  /** What a trade's two unlocks take from an account's locked pocket. */
  function Unlocks(k: Account, t: Trade): real {
    At(k, Holding(t.buyer, t.asset), t.quantity) + At(k, Cash(t.seller), Pay(t.quantity, t.price))
  }

  /** What the unlocks of some trades take from it together. */
  function Due(trades: seq<Trade>, ids: seq<TradeId>, k: Account): real
    requires Within(ids, |trades|)
  {
    if ids == [] then 0.0 else Unlocks(k, trades[ids[0]]) + Due(trades, ids[1..], k)
  }

  ghost predicate Positive(trades: seq<Trade>, ids: seq<TradeId>)
    requires Within(ids, |trades|)
  {
    forall n :: 0 <= n < |ids| ==> trades[ids[n]].quantity > 0.0 && trades[ids[n]].price > 0.0
  }

  lemma {:induction false} DueNonNegative(trades: seq<Trade>, ids: seq<TradeId>, k: Account)
    requires Within(ids, |trades|) && Positive(trades, ids)
    ensures Due(trades, ids, k) >= 0.0
  {
    if ids != [] {
      DueNonNegative(trades, ids[1..], k);
      PayPositive(trades[ids[0]].quantity, trades[ids[0]].price);
    }
  }

  /** The two unlocks of one trade go through exactly when both locked pockets have what they take. */
  lemma BothUnlocks(rows: Rows, t: Trade) returns (ok: bool, after: Rows)
    requires NonNegative(rows) && t.quantity > 0.0 && t.price > 0.0
    ensures ok <==> t.quantity <= Locked(rows, Holding(t.buyer, t.asset))
                    && Pay(t.quantity, t.price) <= Locked(rows, Cash(t.seller))
    ensures ok <==> forall k :: Unlocks(k, t) <= Locked(rows, k)
    ensures var first := Transferred(rows, Holding(t.buyer, t.asset), t.quantity, LockedToAvailable);
            ok <==> first.Ok?
                    && Transferred(first.value, Cash(t.seller), Pay(t.quantity, t.price), LockedToAvailable).Ok?
    ensures ok ==>
              var first := Transferred(rows, Holding(t.buyer, t.asset), t.quantity, LockedToAvailable);
              && Transferred(first.value, Cash(t.seller), Pay(t.quantity, t.price), LockedToAvailable) == Ok(after)
              && NonNegative(after)
              && forall k :: Locked(after, k) == Locked(rows, k) - Unlocks(k, t)
  {
    var holding, cash, quote := Holding(t.buyer, t.asset), Cash(t.seller), Pay(t.quantity, t.price);
    PayPositive(t.quantity, t.price);
    TransferEffect(rows, holding, t.quantity, LockedToAvailable);
    var first := Transferred(rows, holding, t.quantity, LockedToAvailable);
    ok, after := false, rows;
    if first.Ok? {
      TransferEffect(first.value, cash, quote, LockedToAvailable);
      var second := Transferred(first.value, cash, quote, LockedToAvailable);
      if second.Ok? {
        ok, after := true, second.value;
      }
    }
    NonNegativePockets(rows);
    assert Unlocks(holding, t) == t.quantity && Unlocks(cash, t) == quote;
  }

  lemma NonNegativePockets(rows: Rows)
    requires NonNegative(rows)
    ensures forall k :: Locked(rows, k) >= 0.0
  {
  }

  /** Exactly when the unlock loop runs to its end, whatever the trades' statuses and whether or not anything else is
      covered: when every locked pocket has what all the unlocks take from it together. */
  lemma {:induction false} UnlocksRunToEndIff(
    rows: Rows, released: seq<Release>, trades: seq<Trade>, ids: seq<TradeId>)
    requires NonNegative(rows) && Within(ids, |trades|) && Positive(trades, ids)
    ensures var unlocking := UnlockTrades(rows, released, trades, ids);
            && (unlocking.done <==> forall k :: Due(trades, ids, k) <= Locked(rows, k))
            && NonNegative(unlocking.rows)
            && (unlocking.done ==> forall k :: Locked(unlocking.rows, k) == Locked(rows, k) - Due(trades, ids, k))
    decreases |ids|
  {
    NonNegativePockets(rows);
    if ids != [] {
      var t := trades[ids[0]];
      var ok, after := BothUnlocks(rows, t);
      forall k {
        DueNonNegative(trades, ids[1..], k);
      }
      if ok {
        var more := released + [Release(ids[0], Holding(t.buyer, t.asset), t.quantity)]
                    + [Release(ids[0], Cash(t.seller), Pay(t.quantity, t.price))];
        UnlocksRunToEndIff(after, more, trades, ids[1..]);
      } else {
        RefusedIsShort(rows, t);
        FirstRefused(rows, released, trades, ids);
      }
    }
  }

  lemma RefusedIsShort(rows: Rows, t: Trade)
    requires !(forall k :: Unlocks(k, t) <= Locked(rows, k))
    ensures exists k :: Unlocks(k, t) > Locked(rows, k)
  {
  }

  lemma FirstRefused(rows: Rows, released: seq<Release>, trades: seq<Trade>, ids: seq<TradeId>)
    requires NonNegative(rows) && Within(ids, |trades|) && Positive(trades, ids) && ids != []
    requires var t := trades[ids[0]];
             var first := Transferred(rows, Holding(t.buyer, t.asset), t.quantity, LockedToAvailable);
             first.Err? || Transferred(first.value, Cash(t.seller), Pay(t.quantity, t.price), LockedToAvailable).Err?
    ensures !UnlockTrades(rows, released, trades, ids).done
    ensures NonNegative(UnlockTrades(rows, released, trades, ids).rows)
  {
    var t := trades[ids[0]];
    TransferEffect(rows, Holding(t.buyer, t.asset), t.quantity, LockedToAvailable);
  }

  // ----- A group

  lemma {:induction false} DueIgnoresStatus(trades: seq<Trade>, others: seq<Trade>, ids: seq<TradeId>, k: Account)
    requires SameButStatus(trades, others) && Within(ids, |trades|)
    ensures Due(trades, ids, k) == Due(others, ids, k)
  {
    if ids != [] {
      DueIgnoresStatus(trades, others, ids[1..], k);
    }
  }

  /** The group's trades once they are marked for submission. */
  function Submitted(trades: seq<Trade>, tick: Tick, group: Group): (marked: seq<Trade>)
    requires Within(group.trades, |trades|)
    ensures SameButStatus(marked, trades)
  {
    var declined := WithWallets(trades, group.trades, tick.wallets, false);
    var eligible := WithWallets(trades, group.trades, tick.wallets, true);
    Mark(Mark(trades, declined, Declined), eligible, Processing)
  }

  /** After the on-chain call has returned, the group's eligible trades settle exactly when every locked pocket has what
      all their unlocks take from it together; otherwise every trade of the group is marked failed. */
  lemma GroupSettlesIff(s: State, tick: Tick, group: Group)
    requires NonNegative(s.rows) && Within(group.trades, |s.trades|)
    requires group.asset in tick.contracts && group.asset in tick.succeeds
    requires WithWallets(s.trades, group.trades, tick.wallets, true) != []
    requires Positive(s.trades, WithWallets(s.trades, group.trades, tick.wallets, true))
    ensures var eligible := WithWallets(s.trades, group.trades, tick.wallets, true);
            var after := SettleGroup(s, tick, group);
            if forall k :: Due(s.trades, eligible, k) <= Locked(s.rows, k)
            then forall t :: t in eligible ==> t < |after.trades| && after.trades[t].status == Settled
            else forall t :: t in group.trades ==> t < |after.trades| && after.trades[t].status == Failed
  {
    var eligible, marked := WithWallets(s.trades, group.trades, tick.wallets, true), Submitted(s.trades, tick, group);
    forall k
      ensures Due(marked, eligible, k) == Due(s.trades, eligible, k)
    {
      DueIgnoresStatus(marked, s.trades, eligible, k);
    }
    UnlocksRunToEndIff(s.rows, s.released, marked, eligible);
    MarkedAs(marked, eligible, Settled);
    MarkedAs(marked, group.trades, Failed);
  }

  lemma MarkedAs(trades: seq<Trade>, ids: seq<TradeId>, status: Settlement)
    requires Within(ids, |trades|)
    ensures forall t :: t in ids ==> t < |trades| && Mark(trades, ids, status)[t].status == status
  {
    forall t | t in ids
      ensures t < |trades| && Mark(trades, ids, status)[t].status == status
    {
      var i :| 0 <= i < |ids| && ids[i] == t;
    }
  }

  // ----- A group that fails half way

  /** The first of two trades is covered, the second is not once the first has been unlocked. */
  ghost predicate SecondIsShort(rows: Rows, first: Trade, second: Trade) {
    && first.quantity > 0.0 && first.price > 0.0 && second.quantity > 0.0 && second.price > 0.0
    && (forall k :: Unlocks(k, first) <= Locked(rows, k))
    && second.quantity > Locked(rows, Holding(second.buyer, second.asset))
                         - Unlocks(Holding(second.buyer, second.asset), first)
  }

  /** The loop unlocks the first trade and stops: the unlocks stay. */
  lemma StopsHalfWay(rows: Rows, released: seq<Release>, trades: seq<Trade>, a: TradeId, b: TradeId)
    returns (after: Rows)
    requires NonNegative(rows) && a < |trades| && b < |trades| && SecondIsShort(rows, trades[a], trades[b])
    ensures UnlockTrades(rows, released, trades, [a, b]) == Unlocking(after, released + Owed(a, trades[a]), false)
    ensures NonNegative(after) && forall k :: Locked(after, k) == Locked(rows, k) - Unlocks(k, trades[a])
  {
    var t := trades[a];
    var ok;
    ok, after := BothUnlocks(rows, t);
    var more := released + [Release(a, Holding(t.buyer, t.asset), t.quantity)]
                + [Release(a, Cash(t.seller), Pay(t.quantity, t.price))];
    assert more == released + Owed(a, t);
    assert [a, b][1..] == [b];
    TransferEffect(after, Holding(trades[b].buyer, trades[b].asset), trades[b].quantity, LockedToAvailable);
  }

  /** A tick in which everybody has a wallet and the call returns. */
  ghost predicate SmoothTick(s: State, tick: Tick, a: TradeId, b: TradeId) {
    && a < |s.trades| && b < |s.trades| && a != b && s.trades[a].asset == s.trades[b].asset
    && s.trades[a].status in {Unsettled, Failed} && s.trades[b].status in {Unsettled, Failed}
    && tick.picked == [a, b]
    && s.trades[a].asset in tick.contracts && s.trades[a].asset in tick.succeeds
    && HasWallets(s.trades[a], tick.wallets) && HasWallets(s.trades[b], tick.wallets)
  }

  lemma OneGroup(trades: seq<Trade>, picked: seq<TradeId>, a: TradeId, b: TradeId)
    requires a < |trades| && b < |trades| && trades[a].asset == trades[b].asset && picked == [a, b]
    ensures GroupByAsset(trades, picked) == [Group(trades[a].asset, picked)]
  {
    var first := [a];
    assert picked[..1] == first && first[..0] == [];
    assert GroupByAsset(trades, first[..0]) == [];
    assert GroupByAsset(trades, first) == [Group(trades[a].asset, first)];
    assert first + [b] == picked;
  }

  lemma AllWithWallets(trades: seq<Trade>, ids: seq<TradeId>, a: TradeId, b: TradeId, wallets: set<UserId>)
    requires a < |trades| && b < |trades| && ids == [a, b]
    requires HasWallets(trades[a], wallets) && HasWallets(trades[b], wallets)
    ensures WithWallets(trades, ids, wallets, true) == ids && WithWallets(trades, ids, wallets, false) == []
  {
    var rest := [b];
    assert ids[1..] == rest && rest[1..] == [];
    assert WithWallets(trades, rest[1..], wallets, true) == [] && WithWallets(trades, rest[1..], wallets, false) == [];
    assert WithWallets(trades, rest, wallets, true) == [b];
    assert WithWallets(trades, rest, wallets, false) == [];
  }

  /** A group of two of which the second is short keeps the first one's unlocks and is marked failed. */
  lemma FailedGroup(s: State, tick: Tick, group: Group, a: TradeId, b: TradeId) returns (after: State)
    requires NonNegative(s.rows) && SmoothTick(s, tick, a, b) && SecondIsShort(s.rows, s.trades[a], s.trades[b])
    requires group == Group(s.trades[a].asset, [a, b])
    ensures after == SettleGroup(s, tick, group)
    ensures NonNegative(after.rows) && SameButStatus(after.trades, s.trades)
    ensures after.trades[a].status == Failed && after.trades[b].status == Failed
    ensures after.released == s.released + Owed(a, s.trades[a])
    ensures forall k :: Locked(after.rows, k) == Locked(s.rows, k) - Unlocks(k, s.trades[a])
  {
    AllWithWallets(s.trades, group.trades, a, b, tick.wallets);
    var rows := StopsHalfWay(s.rows, s.released, Submitted(s.trades, tick, group), a, b);
    after := SettleGroup(s, tick, group);
    assert a in group.trades && b in group.trades;
  }

  /** A tick over such a pair keeps the first trade's unlocks and marks both failed, so both are picked again. */
  lemma FailedTick(s: State, tick: Tick, a: TradeId, b: TradeId) returns (after: State)
    requires NonNegative(s.rows) && SmoothTick(s, tick, a, b) && SecondIsShort(s.rows, s.trades[a], s.trades[b])
    ensures after == SettleTick(s, tick) && Picks(s.trades, tick)
    ensures NonNegative(after.rows) && SameButStatus(after.trades, s.trades) && SmoothTick(after, tick, a, b)
    ensures after.trades[a].status == Failed && after.trades[b].status == Failed
    ensures after.released == s.released + Owed(a, s.trades[a])
    ensures forall k :: Locked(after.rows, k) == Locked(s.rows, k) - Unlocks(k, s.trades[a])
  {
    var group := Group(s.trades[a].asset, [a, b]);
    OneGroup(s.trades, tick.picked, a, b);
    after := FailedGroup(s, tick, group, a, b);
    OnlyGroup(s, tick, [group]);
  }

  lemma OnlyGroup(s: State, tick: Tick, groups: seq<Group>)
    requires |groups| == 1 && GroupsWithin(groups, |s.trades|)
    ensures SettleGroups(s, tick, groups) == SettleGroup(s, tick, groups[0])
  {
    assert groups[1..] == [];
  }

  /** Two such ticks in a row unlock the first trade twice. */
  lemma UnlockedTwice(s: State, tick: Tick, a: TradeId, b: TradeId) returns (after: State)
    requires NonNegative(s.rows) && SmoothTick(s, tick, a, b) && SecondIsShort(s.rows, s.trades[a], s.trades[b])
    requires forall k :: 2.0 * Unlocks(k, s.trades[a]) <= Locked(s.rows, k)
    ensures after == SettleTick(SettleTick(s, tick), tick)
    ensures SmoothTick(after, tick, a, b) && after.trades[a].status == Failed
    ensures after.released == s.released + Owed(a, s.trades[a]) + Owed(a, s.trades[a])
  {
    var mid := FailedTick(s, tick, a, b);
    after := FailedTick(mid, tick, a, b);
  }

  /** Two ticks over two trades of the same buyer and seller, of one and of three units, of which only two are still
      locked: the trade of one unit is unlocked twice. */
  lemma OneUnitIsUnlockedTwice() returns (s: State, tick: Tick)
    ensures |s.trades| == 2 && s.released == []
    ensures Picks(s.trades, tick) && Picks(SettleTick(s, tick).trades, tick)
    ensures var after := SettleTick(SettleTick(s, tick), tick);
            && ReleasesOf(after.released, 0) == Owed(0, s.trades[0]) + Owed(0, s.trades[0])
            && |after.trades| == 2 && after.trades[0].status == Failed
  {
    var small, large := Trade(7, 1, 2, 10.0, 1.0, Unsettled, 0, 1), Trade(7, 1, 2, 10.0, 3.0, Unsettled, 2, 3);
    var rows := map[Holding(1, 7) := Row(0.0, 2.0), Cash(2) := Row(0.0, 40.0)];
    s := State(rows, [], [], [small, large], []);
    tick := Tick([0, 1], {}, {1, 2}, {7}, {7});
    UnitUnlocks(rows, small, large);
    var mid := FailedTick(s, tick, 0, 1);
    var after := UnlockedTwice(s, tick, 0, 1);
    var again := FailedTick(mid, tick, 0, 1);
    FourReleases(after.released, small);
  }

  lemma UnitUnlocks(rows: Rows, small: Trade, large: Trade)
    requires rows == map[Holding(1, 7) := Row(0.0, 2.0), Cash(2) := Row(0.0, 40.0)]
    requires (small.asset, small.buyer, small.seller, small.price, small.quantity) == (7, 1, 2, 10.0, 1.0)
    requires (large.asset, large.buyer, large.seller, large.price, large.quantity) == (7, 1, 2, 10.0, 3.0)
    ensures NonNegative(rows) && SecondIsShort(rows, small, large)
    ensures forall k :: 2.0 * Unlocks(k, small) <= Locked(rows, k)
  {
    assert Pay(1.0, 10.0) == 10.0;
  }

  lemma FourReleases(released: seq<Release>, t: Trade)
    requires released == [] + Owed(0, t) + Owed(0, t)
    ensures ReleasesOf(released, 0) == released
  {
    var a, b := Owed(0, t)[0], Owed(0, t)[1];
    ReleasesOfTwo([], a, b, 0);
    ReleasesOfTwo([] + [a] + [b], a, b, 0);
    assert released == [] + [a] + [b] + [a] + [b];
  }
}
