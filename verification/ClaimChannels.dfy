/** One entitlement, two ways to claim it: the service credits cash, the contract pays tokens, and neither asks the
    other. */
module ClaimChannels {
  import opened Balances
  import D = Dividends
  import V = Distributor
  import M = Merkle

  datatype Books = Books(accounts: D.Accounts, vault: V.Vault)

  datatype ChannelCall =
    | OffChain(user: UserId, distribution: V.DistributionId)
    | OnChain(call: V.Call)

  /** A call that is refused changes nothing. */
  function Next(h: M.PairHash, leafHash: V.LeafHash, s: Books, call: ChannelCall): Books {
    match call
    case OffChain(user, d) =>
      var r := D.ClaimTaken(s.accounts, user, d);
      if r.Ok? then s.(accounts := r.value) else s
    case OnChain(call) => s.(vault := V.Step(h, leafHash, s.vault, call))
  }

  function Run(h: M.PairHash, leafHash: V.LeafHash, s: Books, calls: seq<ChannelCall>): Books {
    if calls == [] then s
    else Next(h, leafHash, Run(h, leafHash, s, calls[..|calls| - 1]), calls[|calls| - 1])
  }

  function OffCalls(calls: seq<ChannelCall>): seq<D.ClaimCall> {
    if calls == [] then []
    else
      var n := |calls| - 1;
      OffCalls(calls[..n])
      + if calls[n].OffChain? then [D.ClaimCall(calls[n].user, calls[n].distribution)] else []
  }

  function OnCalls(calls: seq<ChannelCall>): seq<V.Call> {
    if calls == [] then []
    else
      var n := |calls| - 1;
      OnCalls(calls[..n]) + if calls[n].OnChain? then [calls[n].call] else []
  }

  /** Each channel runs as if the other were not there. */
  lemma {:induction false} ChannelsAreIndependent(
    h: M.PairHash, leafHash: V.LeafHash, s: Books, calls: seq<ChannelCall>)
    ensures Run(h, leafHash, s, calls)
         == Books(D.Claiming(s.accounts, OffCalls(calls)), V.After(h, leafHash, s.vault, OnCalls(calls)))
  {
    if calls != [] {
      var n := |calls| - 1;
      ChannelsAreIndependent(h, leafHash, s, calls[..n]);
      match calls[n]
      case OffChain(user, d) =>
        ClaimingMore(s.accounts, OffCalls(calls[..n]), D.ClaimCall(user, d));
        assert OnCalls(calls) == OnCalls(calls[..n]);
      case OnChain(call) =>
        AfterMore(h, leafHash, s.vault, OnCalls(calls[..n]), call);
        assert OffCalls(calls) == OffCalls(calls[..n]);
    }
  }

  lemma ClaimingMore(s: D.Accounts, calls: seq<D.ClaimCall>, call: D.ClaimCall)
    ensures var before := D.Claiming(s, calls);
            var r := D.ClaimTaken(before, call.user, call.distribution);
            D.Claiming(s, calls + [call]) == if r.Ok? then r.value else before
  {
    assert (calls + [call])[..|calls|] == calls;
  }

  lemma AfterMore(h: M.PairHash, leafHash: V.LeafHash, v: V.Vault, calls: seq<V.Call>, call: V.Call)
    ensures V.After(h, leafHash, v, calls + [call]) == V.Step(h, leafHash, V.After(h, leafHash, v, calls), call)
  {
    assert (calls + [call])[..|calls|] == calls;
  }

  /** The amounts a wallet was paid of a distribution. */
  function PaidTo(paid: seq<V.Payment>, d: V.DistributionId, wallet: V.Address): seq<nat> {
    if paid == [] then []
    else
      var last := paid[|paid| - 1];
      PaidTo(paid[..|paid| - 1], d, wallet)
      + if last.distribution == d && last.user == wallet then [last.amount] else []
  }

  lemma PaidToMore(paid: seq<V.Payment>, p: V.Payment, d: V.DistributionId, wallet: V.Address)
    ensures PaidTo(paid + [p], d, wallet)
         == PaidTo(paid, d, wallet) + if p.distribution == d && p.user == wallet then [p.amount] else []
  {
    assert (paid + [p])[..|paid|] == paid;
  }

  /** A wallet has been paid once if it is marked, and never otherwise. */
  lemma {:induction false} PaidOncePerMark(
    h: M.PairHash, leafHash: V.LeafHash, owner: V.Address, calls: seq<V.Call>, d: V.DistributionId, wallet: V.Address)
    ensures var v := V.After(h, leafHash, V.NewVault(owner), calls);
            |PaidTo(v.paid, d, wallet)| == if (d, wallet) in v.claimed then 1 else 0
  {
    if calls != [] {
      var n := |calls| - 1;
      var before := V.After(h, leafHash, V.NewVault(owner), calls[..n]);
      PaidOncePerMark(h, leafHash, owner, calls[..n], d, wallet);
      StepMarks(h, leafHash, before, calls[n], d, wallet);
    }
  }

  lemma StepMarks(h: M.PairHash, leafHash: V.LeafHash, v: V.Vault, call: V.Call, d: V.DistributionId, wallet: V.Address)
    requires |PaidTo(v.paid, d, wallet)| == if (d, wallet) in v.claimed then 1 else 0
    ensures var after := V.Step(h, leafHash, v, call);
            |PaidTo(after.paid, d, wallet)| == if (d, wallet) in after.claimed then 1 else 0
  {
    if call.Claim? {
      PaidToMore(v.paid, V.Payment(call.distribution, call.sender, call.amount), d, wallet);
      assert (call.distribution, call.sender) == (d, wallet) <==> call.distribution == d && call.sender == wallet;
    }
  }

  lemma {:induction false} PaidToWasPaid(paid: seq<V.Payment>, d: V.DistributionId, wallet: V.Address, k: nat)
    requires k < |PaidTo(paid, d, wallet)|
    ensures V.Payment(d, wallet, PaidTo(paid, d, wallet)[k]) in paid
  {
    var n := |paid| - 1;
    if k < |PaidTo(paid[..n], d, wallet)| {
      PaidToWasPaid(paid[..n], d, wallet, k);
    }
  }

  /** How often an entitlement has been met: in cash if its claim is taken, in tokens for each payment to the wallet. */
  function TimesMet(s: Books, d: V.DistributionId, user: UserId, wallet: V.Address): nat
    requires (d, user) in s.accounts.claims
  {
    (if s.accounts.claims[(d, user)].status == D.Taken then 1 else 0) + |PaidTo(s.vault.paid, d, wallet)|
  }

  /** What a user gets over both channels, after any calls by anybody: at most the claim's own amount in cash and one
      entry of the user's wallet in tokens; and the entitlement has been met more than once if and only if the claim is
      taken and the wallet is marked. */
  lemma WhatAUserGets(h: M.PairHash, leafHash: V.LeafHash, owner: V.Address, start: D.Accounts, calls: seq<ChannelCall>,
                      d: V.DistributionId, user: UserId, wallet: V.Address, entries: seq<V.Entry>)
    requires NonNegative(start.rows) && D.ClaimsPositive(start.claims)
    requires (d, user) in start.claims && start.claims[(d, user)].status == D.Unclaimed
    requires V.Unforged(h, leafHash, OnCalls(calls), d, entries)
    requires V.Publishes(h, leafHash, Run(h, leafHash, Books(start, V.NewVault(owner)), calls).vault, d, entries)
    ensures var now := Run(h, leafHash, Books(start, V.NewVault(owner)), calls);
            && (d, user) in now.accounts.claims
            && now.accounts.claims[(d, user)].amount == start.claims[(d, user)].amount
            && var taken, marked := now.accounts.claims[(d, user)].status == D.Taken, (d, wallet) in now.vault.claimed;
               && TimesMet(now, d, user, wallet) == (if taken then 1 else 0) + (if marked then 1 else 0)
               && (TimesMet(now, d, user, wallet) <= 1 <==> !(taken && marked))
               && (marked ==> V.Entry(wallet, PaidTo(now.vault.paid, d, wallet)[0]) in entries)
  {
    var now := Run(h, leafHash, Books(start, V.NewVault(owner)), calls);
    ChannelsAreIndependent(h, leafHash, Books(start, V.NewVault(owner)), calls);
    D.CreditedPlusPendingConstant(start, OffCalls(calls));
    PaidOncePerMark(h, leafHash, owner, OnCalls(calls), d, wallet);
    if (d, wallet) in now.vault.claimed {
      V.RunsPayProperly(h, leafHash, owner, OnCalls(calls), d, entries);
      PaidToWasPaid(now.vault.paid, d, wallet, 0);
    }
  }

  /** Nothing stands in the way of both: whoever has an open claim and an entry that the contract can pay gets cash
      from the one and tokens from the other, in either order. */
  lemma BothChannelsPay(h: M.PairHash, leafHash: V.LeafHash, s: Books, d: V.DistributionId, user: UserId,
                        entries: seq<V.Entry>, i: nat)
    requires NonNegative(s.accounts.rows) && D.ClaimsPositive(s.accounts.claims)
    requires (d, user) in s.accounts.claims && s.accounts.claims[(d, user)].status == D.Unclaimed
    requires V.Publishes(h, leafHash, s.vault, d, entries) && i < |entries|
    requires (d, entries[i].user) !in s.vault.claimed && entries[i].amount <= s.vault.funds
    ensures var e := entries[i];
            var cash := OffChain(user, d);
            var tokens := OnChain(V.Claim(e.user, d, e.amount, M.ProofFrom(h, V.LeavesOf(leafHash, entries), i)));
            var now := Next(h, leafHash, Next(h, leafHash, s, cash), tokens);
            && now == Next(h, leafHash, Next(h, leafHash, s, tokens), cash)
            && Available(now.accounts.rows, Cash(user))
               == Available(s.accounts.rows, Cash(user)) + s.accounts.claims[(d, user)].amount
            && now.vault.paid == s.vault.paid + [V.Payment(d, e.user, e.amount)]
  {
    D.ClaimTakenEffect(s.accounts, user, d);
    V.EntryCanBeClaimed(h, leafHash, s.vault, d, entries, i);
  }
}
