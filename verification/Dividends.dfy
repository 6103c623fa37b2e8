/** Dividend distributions: the snapshot that creates the claims, and the claims themselves. */
module Dividends {
  import opened Common
  import opened Sums
  import opened Balances
  import opened Snapshots

  type DistributionId = nat

  datatype ClaimStatus = Unclaimed | Taken

  datatype Claim = Claim(amount: real, status: ClaimStatus)

  /** The claim table, unique by distribution and user. */
  type Claims = map<(DistributionId, UserId), Claim>

  // ----- The snapshot

  /** The part of a total that goes with a holding out of the supply. */
  function Portion(total: real, held: real, supply: real): real
    requires supply > 0.0
  {
    total * (held / supply)
  }

  /** A holder's share of a distribution. */
  function Payout(total: real, supply: real, row: HoldingRow): real
    requires supply > 0.0
  {
    Portion(total, HeldBy(row), supply)
  }

  /** A portion is to the total as the holding is to the supply. */
  lemma PortionIsProportional(total: real, held: real, supply: real)
    requires supply > 0.0
    ensures Portion(total, held, supply) * supply == total * held
  {
    assert held / supply * supply == held;
    assert total * (held / supply) * supply == total * (held / supply * supply);
  }

  lemma PortionAdds(total: real, held: real, more: real, supply: real)
    requires supply > 0.0
    ensures Portion(total, held + more, supply) == Portion(total, held, supply) + Portion(total, more, supply)
    ensures Portion(total, 0.0, supply) == 0.0
  {
    assert (held + more) / supply == held / supply + more / supply;
  }

  lemma PortionNonNegative(total: real, held: real, supply: real)
    requires supply > 0.0 && total >= 0.0 && held >= 0.0
    ensures Portion(total, held, supply) >= 0.0
  {
    assert held / supply >= 0.0;
  }

  /** A portion is within the total exactly when the holding is within the supply, or the total is nothing. */
  lemma PortionWithin(total: real, held: real, supply: real)
    requires supply > 0.0 && total >= 0.0
    ensures Portion(total, held, supply) <= total <==> held <= supply || total == 0.0
  {
    PortionAdds(total, supply, held - supply, supply);
    assert Portion(total, supply, supply) == total by {
      assert supply / supply == 1.0;
    }
    if held <= supply {
      PortionNonNegative(total, supply - held, supply);
      PortionAdds(total, held - supply, supply - held, supply);
    } else if total > 0.0 {
      assert (held - supply) / supply > 0.0;
    }
  }

  datatype Share = Share(user: UserId, amount: real)

  /** The positive shares of some holders, in order. */
  function Shares(total: real, supply: real, rows: seq<HoldingRow>): seq<Share>
    requires supply > 0.0
  {
    if rows == [] then []
    else
      var n := |rows| - 1;
      var amount := Payout(total, supply, rows[n]);
      Shares(total, supply, rows[..n]) + if amount > 0.0 then [Share(rows[n].user, amount)] else []
  }

  lemma SharesSnoc(total: real, supply: real, rows: seq<HoldingRow>)
    requires supply > 0.0 && rows != []
    ensures var n := |rows| - 1;
            var earlier, amount := Shares(total, supply, rows[..n]), Payout(total, supply, rows[n]);
            Shares(total, supply, rows) == if amount > 0.0 then earlier + [Share(rows[n].user, amount)] else earlier
  {
  }

  lemma {:induction false} SharesOfPages(total: real, supply: real, page: seq<HoldingRow>, next: seq<HoldingRow>)
    requires supply > 0.0
    ensures Shares(total, supply, page + next) == Shares(total, supply, page) + Shares(total, supply, next)
  {
    if next == [] {
      assert page + next == page;
    } else {
      var n := |next| - 1;
      SharesOfPages(total, supply, page, next[..n]);
      assert (page + next)[..|page| + n] == page + next[..n];
    }
  }

  /** A bulk insert that skips rows already there. */
  function Inserted(claims: Claims, d: DistributionId, shares: seq<Share>): Claims {
    if shares == [] then claims
    else
      var n := |shares| - 1;
      var before := Inserted(claims, d, shares[..n]);
      if (d, shares[n].user) in before then before
      else before[(d, shares[n].user) := Claim(shares[n].amount, Unclaimed)]
  }

  lemma {:induction false} InsertedInTwo(claims: Claims, d: DistributionId, first: seq<Share>, second: seq<Share>)
    ensures Inserted(claims, d, first + second) == Inserted(Inserted(claims, d, first), d, second)
  {
    if second == [] {
      assert first + second == first;
    } else {
      var n := |second| - 1;
      InsertedInTwo(claims, d, first, second[..n]);
      assert (first + second)[..|first| + n] == first + second[..n];
    }
  }

  function AmountOf(): Share -> real {
    (s: Share) => s.amount
  }

  function HoldingOf(): HoldingRow -> real {
    (row: HoldingRow) => HeldBy(row)
  }

  lemma {:induction false} SumOfShares(first: seq<Share>, second: seq<Share>)
    ensures Sum(first + second, AmountOf()) == Sum(first, AmountOf()) + Sum(second, AmountOf())
  {
    if second == [] {
      assert first + second == first;
    } else {
      var n := |second| - 1;
      SumOfShares(first, second[..n]);
      assert (first + second)[..|first| + n] == first + second[..n];
    }
  }

  /** The shares add up in proportion to the holdings. */
  lemma {:induction false} SharesProportional(total: real, supply: real, rows: seq<HoldingRow>)
    requires supply > 0.0 && total >= 0.0
    requires forall row :: row in rows ==> HeldBy(row) > 0.0
    ensures Sum(Shares(total, supply, rows), AmountOf()) == Portion(total, Sum(rows, HoldingOf()), supply)
  {
    if rows == [] {
      PortionAdds(total, 0.0, 0.0, supply);
    } else {
      var n := |rows| - 1;
      SharesProportional(total, supply, rows[..n]);
      assert rows[n] in rows;
      SharesSnoc(total, supply, rows);
      PortionAdds(total, Sum(rows[..n], HoldingOf()), HeldBy(rows[n]), supply);
      PortionNonNegative(total, HeldBy(rows[n]), supply);
      SumSnoc(Shares(total, supply, rows[..n]), Share(rows[n].user, Payout(total, supply, rows[n])), AmountOf());
    }
  }

  /** What no claim takes: the part of the total for holders off the exchange. */
  function Treasury(total: real, claimed: real): real {
    Max(total - claimed, 0.0)
  }

  /** Claims and treasury make up the total exactly when the snapshot found no more than the supply, or there was
      nothing to distribute. */
  lemma ClaimsAndTreasuryMakeTotal(total: real, supply: real, rows: seq<HoldingRow>)
    requires supply > 0.0 && total >= 0.0
    requires forall row :: row in rows ==> HeldBy(row) > 0.0
    ensures var claimed := Sum(Shares(total, supply, rows), AmountOf());
            claimed + Treasury(total, claimed) == total <==> Sum(rows, HoldingOf()) <= supply || total == 0.0
  {
    SharesProportional(total, supply, rows);
    PortionWithin(total, Sum(rows, HoldingOf()), supply);
  }

  /** Two holders with more than the supply between them: claims and treasury come to more than the total. */
  lemma HoldingsBeyondSupply()
    ensures var rows := [HoldingRow(1, 1, 75.0, 0.0), HoldingRow(2, 2, 50.0, 25.0)];
            var claimed := Sum(Shares(40.0, 100.0, rows), AmountOf());
            claimed == 60.0 && Treasury(40.0, claimed) == 0.0
  {
    var first, second := HoldingRow(1, 1, 75.0, 0.0), HoldingRow(2, 2, 50.0, 25.0);
    var rows := [first] + [second];
    SumSnoc([first], second, HoldingOf());
    SumSnoc([], first, HoldingOf());
    assert [] + [first] == [first] && rows == [first, second];
    SharesProportional(40.0, 100.0, rows);
  }

  lemma {:induction false} InsertedOthers(
    claims: Claims, d: DistributionId, shares: seq<Share>, key: (DistributionId, UserId))
    requires key.0 != d || forall i :: 0 <= i < |shares| ==> shares[i].user != key.1
    ensures key in Inserted(claims, d, shares) <==> key in claims
    ensures key in claims ==> Inserted(claims, d, shares)[key] == claims[key]
  {
    if shares != [] {
      InsertedOthers(claims, d, shares[..|shares| - 1], key);
    }
  }

  lemma {:induction false} SharesOfUser(total: real, supply: real, rows: seq<HoldingRow>, user: UserId)
    requires supply > 0.0
    requires forall i :: 0 <= i < |rows| ==> rows[i].user != user
    ensures forall i :: 0 <= i < |Shares(total, supply, rows)| ==> Shares(total, supply, rows)[i].user != user
  {
    if rows != [] {
      SharesOfUser(total, supply, rows[..|rows| - 1], user);
    }
  }

  lemma InsertedSnoc(claims: Claims, d: DistributionId, shares: seq<Share>, s: Share)
    ensures var before := Inserted(claims, d, shares);
            Inserted(claims, d, shares + [s])
            == if (d, s.user) in before then before else before[(d, s.user) := Claim(s.amount, Unclaimed)]
  {
    assert (shares + [s])[..|shares|] == shares;
  }

  /** A first snapshot gives each holder exactly one claim, of the holder's own share. */
  lemma {:induction false} OneClaimPerHolder(
    claims: Claims, d: DistributionId, total: real, supply: real, rows: seq<HoldingRow>, i: nat)
    requires supply > 0.0 && i < |rows| && (d, rows[i].user) !in claims
    requires forall j, k :: 0 <= j < k < |rows| ==> rows[j].user != rows[k].user
    ensures var after := Inserted(claims, d, Shares(total, supply, rows));
            var key, amount := (d, rows[i].user), Payout(total, supply, rows[i]);
            if amount > 0.0 then key in after && after[key] == Claim(amount, Unclaimed) else key !in after
  {
    var n := |rows| - 1;
    var earlier, last := Shares(total, supply, rows[..n]), Payout(total, supply, rows[n]);
    SharesSnoc(total, supply, rows);
    InsertedSnoc(claims, d, earlier, Share(rows[n].user, last));
    if i == n {
      SharesOfUser(total, supply, rows[..n], rows[n].user);
      InsertedOthers(claims, d, earlier, (d, rows[n].user));
    } else {
      OneClaimPerHolder(claims, d, total, supply, rows[..n], i);
      assert (d, rows[i].user) != (d, rows[n].user);
    }
  }

  // ----- Claiming

  datatype ClaimError = ClaimNotFound | AlreadyClaimed | Ledger(error: LedgerError)

  datatype Accounts = Accounts(claims: Claims, rows: Rows)

  /** Takes a claim and credits its amount, both or neither. */
  function ClaimTaken(s: Accounts, user: UserId, d: DistributionId): Result<Accounts, ClaimError> {
    if (d, user) !in s.claims then Err(ClaimNotFound)
    else
      var claim := s.claims[(d, user)];
      if claim.status == Taken then Err(AlreadyClaimed)
      else
        match Updated(s.rows, Cash(user), claim.amount, Credit, true, false)
        case Err(e) => Err(Ledger(e))
        case Ok(rows) => Ok(Accounts(s.claims[(d, user) := claim.(status := Taken)], rows))
  }

  function PendingAmount(): ((DistributionId, UserId), Claim) -> real {
    (k: (DistributionId, UserId), c: Claim) => if c.status == Unclaimed then c.amount else 0.0
  }

  ghost function Pending(claims: Claims): real {
    SumMap(claims, PendingAmount())
  }

  /** Claims are made for positive amounts only. */
  ghost predicate ClaimsPositive(claims: Claims) {
    forall k :: k in claims ==> claims[k].amount > 0.0
  }

  /** A claim goes through exactly once, and moves its amount from what is pending to its owner's available cash. */
  lemma ClaimTakenEffect(s: Accounts, user: UserId, d: DistributionId)
    requires NonNegative(s.rows) && ClaimsPositive(s.claims)
    ensures ClaimTaken(s, user, d).Ok? <==> (d, user) in s.claims && s.claims[(d, user)].status == Unclaimed
    ensures ClaimTaken(s, user, d).Ok? ==>
              var after := ClaimTaken(s, user, d).value;
              var amount := s.claims[(d, user)].amount;
              && NonNegative(after.rows) && ClaimsPositive(after.claims)
              && after.claims == s.claims[(d, user) := Claim(amount, Taken)]
              && ClaimTaken(after, user, d) == Err(AlreadyClaimed)
              && Pending(after.claims) == Pending(s.claims) - amount
              && Total(after.rows, None) == Total(s.rows, None) + amount
              && (forall k ::
                    Available(after.rows, k) == Available(s.rows, k) + if k == Cash(user) then amount else 0.0)
              && (forall k :: Locked(after.rows, k) == Locked(s.rows, k))
    ensures ClaimTaken(s, user, d).Err? ==>
              ClaimTaken(s, user, d).error == if (d, user) in s.claims then AlreadyClaimed else ClaimNotFound
  {
    if (d, user) in s.claims {
      var claim := s.claims[(d, user)];
      AvailableCreditEffect(s.rows, Cash(user), claim.amount);
      SumMapPut(s.claims, (d, user), claim.(status := Taken), PendingAmount());
    }
  }

  datatype ClaimCall = ClaimCall(user: UserId, distribution: DistributionId)

  function Claiming(s: Accounts, calls: seq<ClaimCall>): Accounts {
    if calls == [] then s
    else
      var before := Claiming(s, calls[..|calls| - 1]);
      var r := ClaimTaken(before, calls[|calls| - 1].user, calls[|calls| - 1].distribution);
      if r.Ok? then r.value else before
  }

  /** Whoever claims whatever, however often: what has been credited and what is still pending stay equal to what was
      created, and a claim that has been taken stays taken. */
  lemma {:induction false} CreditedPlusPendingConstant(s: Accounts, calls: seq<ClaimCall>)
    requires NonNegative(s.rows) && ClaimsPositive(s.claims)
    ensures var after := Claiming(s, calls);
            && NonNegative(after.rows) && ClaimsPositive(after.claims)
            && (Total(after.rows, None) - Total(s.rows, None)) + Pending(after.claims) == Pending(s.claims)
            && after.claims.Keys == s.claims.Keys
            && (forall k :: k in s.claims ==>
                  && after.claims[k].amount == s.claims[k].amount
                  && (s.claims[k].status == Taken ==> after.claims[k].status == Taken))
  {
    if calls != [] {
      var n := |calls| - 1;
      CreditedPlusPendingConstant(s, calls[..n]);
      ClaimTakenEffect(Claiming(s, calls[..n]), calls[n].user, calls[n].distribution);
    }
  }

  // ----- Distributions from their creation to the last claim

  datatype DistributionStatus = Waiting | ReadyForClaim | Completed

  /** What a snapshot makes of its distribution. */
  function StatusAfter(claimCount: nat): DistributionStatus {
    if claimCount > 0 then ReadyForClaim else Completed
  }

  /** The claim table, the balances, and the distributions with their statuses; created is the model's own note of the
      sum of all shares that snapshots came to. */
  datatype Books = Books(accounts: Accounts, statuses: map<DistributionId, DistributionStatus>, created: real)

  datatype DividendStep =
    | Announce(d: DistributionId)
    | Distribute(d: DistributionId, total: real, supply: real, table: seq<HoldingRow>)
    | Take(user: UserId, d: DistributionId)

  /** A snapshot is taken of a waiting distribution only; with an invalid supply it stays waiting. */
  function DividendNext(s: Books, step: DividendStep): Books {
    match step
    case Announce(d) => if d in s.statuses then s else s.(statuses := s.statuses[d := Waiting])
    case Distribute(d, total, supply, table) =>
      if d !in s.statuses || s.statuses[d] != Waiting || supply <= 0.0 then s
      else
        var shares := Shares(total, supply, Held(table));
        Books(Accounts(Inserted(s.accounts.claims, d, shares), s.accounts.rows),
              s.statuses[d := StatusAfter(|shares|)], s.created + Sum(shares, AmountOf()))
    case Take(user, d) =>
      var r := ClaimTaken(s.accounts, user, d);
      if r.Ok? then s.(accounts := r.value) else s
  }

  function DividendRun(s: Books, steps: seq<DividendStep>): Books {
    if steps == [] then s
    else DividendNext(DividendRun(s, steps[..|steps| - 1]), steps[|steps| - 1])
  }

  /** A user has one balance row of an asset. */
  ghost predicate OneRowEach(step: DividendStep) {
    step.Distribute? ==> DistinctUsers(step.table)
  }

  /** What was credited since the start and what is pending make up what was created; claims belong to distributions
      that have had their snapshot. */
  ghost predicate Accounted(start: Rows, s: Books) {
    && NonNegative(s.accounts.rows) && ClaimsPositive(s.accounts.claims)
    && (forall k :: k in s.accounts.claims ==> k.0 in s.statuses && s.statuses[k.0] != Waiting)
    && (Total(s.accounts.rows, None) - Total(start, None)) + Pending(s.accounts.claims) == s.created
  }

  /** Positive shares of different users. */
  ghost predicate DistinctShares(shares: seq<Share>) {
    && (forall i :: 0 <= i < |shares| ==> shares[i].amount > 0.0)
    && (forall i, j :: 0 <= i < j < |shares| ==> shares[i].user != shares[j].user)
  }

  /** A first snapshot adds exactly its shares to what is pending. */
  lemma {:induction false} SnapshotAddsShares(claims: Claims, d: DistributionId, shares: seq<Share>)
    requires DistinctShares(shares) && forall i :: 0 <= i < |shares| ==> (d, shares[i].user) !in claims
    ensures Pending(Inserted(claims, d, shares)) == Pending(claims) + Sum(shares, AmountOf())
  {
    if shares != [] {
      var n := |shares| - 1;
      SnapshotAddsShares(claims, d, shares[..n]);
      InsertedOthers(claims, d, shares[..n], (d, shares[n].user));
      SumMapPut(Inserted(claims, d, shares[..n]), (d, shares[n].user), Claim(shares[n].amount, Unclaimed),
                PendingAmount());
    }
  }

  lemma {:induction false} InsertedClaims(claims: Claims, d: DistributionId, shares: seq<Share>)
    requires ClaimsPositive(claims) && DistinctShares(shares)
    ensures ClaimsPositive(Inserted(claims, d, shares))
    ensures forall k :: k in Inserted(claims, d, shares) ==> k in claims || k.0 == d
  {
    if shares != [] {
      InsertedClaims(claims, d, shares[..|shares| - 1]);
    }
  }

  ghost predicate DistinctUsers(rows: seq<HoldingRow>) {
    forall i, j :: 0 <= i < j < |rows| ==> rows[i].user != rows[j].user
  }

  lemma {:induction false} SharesOfDistinct(total: real, supply: real, rows: seq<HoldingRow>)
    requires supply > 0.0 && DistinctUsers(rows)
    ensures DistinctShares(Shares(total, supply, rows))
  {
    if rows != [] {
      var n := |rows| - 1;
      SharesOfDistinct(total, supply, rows[..n]);
      SharesSnoc(total, supply, rows);
      SharesOfUser(total, supply, rows[..n], rows[n].user);
    }
  }

  lemma {:induction false} HeldOfDistinct(table: seq<HoldingRow>)
    requires DistinctUsers(table)
    ensures DistinctUsers(Held(table))
    ensures forall i :: 0 <= i < |Held(table)| ==> Held(table)[i] in table
  {
    if table != [] {
      HeldOfDistinct(table[..|table| - 1]);
    }
  }

  lemma InsertedAccounted(start: Rows, s: Books, d: DistributionId, shares: seq<Share>)
    requires Accounted(start, s) && DistinctShares(shares)
    requires forall user: UserId :: (d, user) !in s.accounts.claims
    ensures Accounted(start, Books(Accounts(Inserted(s.accounts.claims, d, shares), s.accounts.rows),
                                   s.statuses[d := StatusAfter(|shares|)], s.created + Sum(shares, AmountOf())))
  {
    SnapshotAddsShares(s.accounts.claims, d, shares);
    InsertedClaims(s.accounts.claims, d, shares);
  }

  lemma WaitingHasNoClaims(s: Books, d: DistributionId)
    requires forall k :: k in s.accounts.claims ==> k.0 in s.statuses && s.statuses[k.0] != Waiting
    requires d in s.statuses && s.statuses[d] == Waiting
    ensures forall user: UserId :: (d, user) !in s.accounts.claims
  {
    forall user: UserId
      ensures (d, user) !in s.accounts.claims
    {
      var k := (d, user);
      assert k.0 == d;
    }
  }

  lemma DistributeAccounted(start: Rows, s: Books, d: DistributionId, total: real, supply: real, rows: seq<HoldingRow>)
    requires Accounted(start, s) && d in s.statuses && s.statuses[d] == Waiting
    requires supply > 0.0 && DistinctUsers(rows)
    ensures var shares := Shares(total, supply, rows);
            Accounted(start, Books(Accounts(Inserted(s.accounts.claims, d, shares), s.accounts.rows),
                                   s.statuses[d := StatusAfter(|shares|)], s.created + Sum(shares, AmountOf())))
  {
    SharesOfDistinct(total, supply, rows);
    WaitingHasNoClaims(s, d);
    InsertedAccounted(start, s, d, Shares(total, supply, rows));
  }

  lemma DividendStepAccounted(start: Rows, s: Books, step: DividendStep)
    requires Accounted(start, s) && OneRowEach(step)
    ensures Accounted(start, DividendNext(s, step))
  {
    match step
    case Announce(_) =>
    case Distribute(d, total, supply, table) =>
      if d in s.statuses && s.statuses[d] == Waiting && supply > 0.0 {
        HeldOfDistinct(table);
        DistributeAccounted(start, s, d, total, supply, Held(table));
      }
    case Take(user, d) => ClaimTakenEffect(s.accounts, user, d);
  }

  /** Over any run of announcements, snapshots and claims, what was credited and what is pending are together exactly
      what the snapshots created. */
  lemma {:induction false} CreatedIsCreditedOrPending(start: Rows, steps: seq<DividendStep>)
    requires NonNegative(start) && forall i :: 0 <= i < |steps| ==> OneRowEach(steps[i])
    ensures Accounted(start, DividendRun(Books(Accounts(map[], start), map[], 0.0), steps))
  {
    if steps != [] {
      var n := |steps| - 1;
      CreatedIsCreditedOrPending(start, steps[..n]);
      DividendStepAccounted(start, DividendRun(Books(Accounts(map[], start), map[], 0.0), steps[..n]), steps[n]);
    }
  }

  // ----- The service

  datatype SnapshotOutcome = SnapshotOutcome(claimCount: nat, claimed: real, treasury: real)

  /** Where the snapshot stands once it has gone through some rows. */
  ghost predicate Snapshotted(
    before: Claims, after: Claims, d: DistributionId, shares: seq<Share>, count: nat, claimed: real)
  {
    after == Inserted(before, d, shares) && count == |shares| && claimed == Sum(shares, AmountOf())
  }

  lemma SnapshotPage(before: Claims, now: Claims, d: DistributionId, total: real, supply: real, done: seq<HoldingRow>,
                     page: seq<HoldingRow>, count: nat, claimed: real)
    requires supply > 0.0
    requires Snapshotted(before, now, d, Shares(total, supply, done), count, claimed)
    ensures var shares := Shares(total, supply, page);
            Snapshotted(before, Inserted(now, d, shares), d, Shares(total, supply, done + page), count + |shares|,
                        claimed + Sum(shares, AmountOf()))
  {
    var shares := Shares(total, supply, page);
    SharesOfPages(total, supply, done, page);
    InsertedInTwo(before, d, Shares(total, supply, done), shares);
    SumOfShares(Shares(total, supply, done), shares);
  }

  class DividendsService {
    const balances: BalancesService
    var claims: Claims
    var statuses: map<DistributionId, DistributionStatus>

    constructor (balances: BalancesService)
      ensures this.balances == balances && claims == map[] && statuses == map[]
    {
      this.balances := balances;
      claims, statuses := map[], map[];
    }

    /** The snapshot of a waiting distribution. The supply is missing when the asset is; then, as when it is not
        positive, the distribution stays waiting. */
    method ProcessSnapshot(d: DistributionId, total: real, listed: Option<real>, table: seq<HoldingRow>, batchSize: nat)
      returns (r: Option<SnapshotOutcome>)
      requires SortedById(table) && batchSize > 0
      requires d in statuses && statuses[d] == Waiting
      modifies this`claims, this`statuses
      ensures r.None? <==> listed.None? || listed.value <= 0.0
      ensures r.None? ==> claims == old(claims) && statuses == old(statuses)
      ensures r.Some? ==>
                var shares := Shares(total, listed.value, Held(table));
                && claims == Inserted(old(claims), d, shares)
                && statuses == old(statuses)[d := StatusAfter(|shares|)]
                && r.value.claimCount == |shares|
                && r.value.claimed == Sum(shares, AmountOf())
                && r.value.treasury == Treasury(total, r.value.claimed)
    {
      if listed.None? || listed.value <= 0.0 {
        return None;
      }
      var claimCount, claimed := ClaimsOfHolders(d, total, listed.value, table, batchSize);
      statuses := statuses[d := StatusAfter(claimCount)];
      return Some(SnapshotOutcome(claimCount, claimed, Treasury(total, claimed)));
    }

    /** The cursor loop: whatever the page size, it visits every holder once and stops. */
    method ClaimsOfHolders(d: DistributionId, total: real, supply: real, table: seq<HoldingRow>, batchSize: nat)
      returns (claimCount: nat, claimed: real)
      requires SortedById(table) && batchSize > 0 && supply > 0.0
      modifies this`claims
      ensures Snapshotted(old(claims), claims, d, Shares(total, supply, Held(table)), claimCount, claimed)
    {
      VisitedNone(table);
      var cursor: Option<nat> := None;
      claimCount, claimed := 0, 0.0;
      ghost var done := [];
      while true
        invariant Visited(table, cursor, done)
        invariant Snapshotted(old(claims), claims, d, Shares(total, supply, done), claimCount, claimed)
        decreases |Held(table)| - |done|
      {
        NextPage(table, cursor, done, batchSize);
        var page := Page(table, cursor, batchSize);
        if page == [] {
          break;
        }
        cursor := Some(page[|page| - 1].id);
        var shares := Shares(total, supply, page);
        SnapshotPage(old(claims), claims, d, total, supply, done, page, claimCount, claimed);
        claims := Inserted(claims, d, shares);
        claimCount := claimCount + |shares|;
        claimed := claimed + Sum(shares, AmountOf());
        done := done + page;
      }
    }

    method ClaimDividend(user: UserId, d: DistributionId) returns (r: Result<real, ClaimError>)
      modifies this`claims, balances
      ensures match ClaimTaken(Accounts(old(claims), old(balances.rows)), user, d)
              case Ok(after) => Accounts(claims, balances.rows) == after && r == Ok(old(claims)[(d, user)].amount)
              case Err(e) => claims == old(claims) && balances.rows == old(balances.rows) && r == Err(e)
    {
      if (d, user) !in claims {
        return Err(ClaimNotFound);
      }
      var claim := claims[(d, user)];
      if claim.status == Taken {
        return Err(AlreadyClaimed);
      }
      var credited := balances.UpdateBalance(Cash(user), claim.amount, Credit, true, false);
      if credited.Err? {
        return Err(Ledger(credited.error));
      }
      claims := claims[(d, user) := claim.(status := Taken)];
      return Ok(claim.amount);
    }
  }
}

/** What a snapshot writes, in the fields of the balance rows it read. */
module DividendRules {
  import opened Balances
  import opened Snapshots
  import opened Dividends

  /** A row the snapshot pays: it holds something, and its part of the total is positive. */
  predicate Entitled(row: HoldingRow, total: real, supply: real)
    requires supply > 0.0
  {
    (row.available > 0.0 || row.locked > 0.0) && Portion(total, row.available + row.locked, supply) > 0.0
  }

  lemma {:induction false} NoShareWithoutRow(total: real, supply: real, rows: seq<HoldingRow>)
    requires supply > 0.0
    ensures Shares(total, supply, rows) == []
       <==> forall i :: 0 <= i < |rows| ==> Portion(total, rows[i].available + rows[i].locked, supply) <= 0.0
  {
    if rows != [] {
      NoShareWithoutRow(total, supply, rows[..|rows| - 1]);
    }
  }

  lemma {:induction false} HeldRows(table: seq<HoldingRow>)
    ensures forall row :: row in Held(table) <==> row in table && (row.available > 0.0 || row.locked > 0.0)
  {
    if table != [] {
      var n := |table| - 1;
      HeldRows(table[..n]);
      assert table == table[..n] + [table[n]];
    }
  }

  ghost predicate AnyEntitled(table: seq<HoldingRow>, total: real, supply: real)
    requires supply > 0.0
  {
    exists row :: row in table && Entitled(row, total, supply)
  }

  lemma SharesAreOfTheEntitled(total: real, supply: real, table: seq<HoldingRow>)
    requires supply > 0.0
    ensures Shares(total, supply, Held(table)) != [] <==> AnyEntitled(table, total, supply)
  {
    var held := Held(table);
    NoShareWithoutRow(total, supply, held);
    HeldRows(table);
    if Shares(total, supply, held) == [] {
      forall row | row in table
        ensures !Entitled(row, total, supply)
      {
        if row in held {
          var i :| 0 <= i < |held| && held[i] == row;
        }
      }
    } else {
      var i :| 0 <= i < |held| && Portion(total, held[i].available + held[i].locked, supply) > 0.0;
      assert held[i] in held;
      assert Entitled(held[i], total, supply);
    }
  }

  /** A waiting distribution opens for claims if and only if some holder's part of it is positive; otherwise it is
      completed at once. With an invalid supply, or when it is not waiting, nothing happens. */
  lemma OpensIffSomebodyIsPaid(s: Books, d: DistributionId, total: real, supply: real, table: seq<HoldingRow>)
    ensures var after := DividendNext(s, Distribute(d, total, supply, table));
            if d in s.statuses && s.statuses[d] == Waiting && supply > 0.0
            then && after.accounts.rows == s.accounts.rows
                 && after.statuses
                    == s.statuses[d := if AnyEntitled(table, total, supply) then ReadyForClaim else Completed]
            else after == s
  {
    if supply > 0.0 {
      SharesAreOfTheEntitled(total, supply, table);
    }
  }

  /** A distribution waits from its announcement on, so its first snapshot decides. */
  lemma AnnouncedThenDistributed(s: Books, d: DistributionId, total: real, supply: real, table: seq<HoldingRow>)
    requires d !in s.statuses && supply > 0.0
    ensures var after := DividendNext(DividendNext(s, Announce(d)), Distribute(d, total, supply, table)).statuses;
            after == s.statuses[d := if AnyEntitled(table, total, supply) then ReadyForClaim else Completed]
  {
    OpensIffSomebodyIsPaid(DividendNext(s, Announce(d)), d, total, supply, table);
    assert s.statuses[d := Waiting][d := ReadyForClaim] == s.statuses[d := ReadyForClaim];
    assert s.statuses[d := Waiting][d := Completed] == s.statuses[d := Completed];
  }

  /** It writes one open claim for each user who is paid, of the user's part of the total in proportion to what the user
      holds in both pockets, and no other claim changes. */
  lemma ClaimsAreProportional(s: Books, d: DistributionId, total: real, supply: real, table: seq<HoldingRow>, i: nat)
    requires d in s.statuses && s.statuses[d] == Waiting && supply > 0.0
    requires DistinctUsers(table) && i < |table| && (d, table[i].user) !in s.accounts.claims
    ensures var after, key := DividendNext(s, Distribute(d, total, supply, table)).accounts.claims, (d, table[i].user);
            && (key in after <==> Entitled(table[i], total, supply))
            && (key in after ==>
                  after[key] == Claim(Portion(total, table[i].available + table[i].locked, supply), Unclaimed))
  {
    var held := Held(table);
    HeldOfDistinct(table);
    HeldRows(table);
    if table[i] in held {
      var j :| 0 <= j < |held| && held[j] == table[i];
      OneClaimPerHolder(s.accounts.claims, d, total, supply, held, j);
    } else {
      forall j | 0 <= j < |held|
        ensures held[j].user != table[i].user
      {
        var k :| 0 <= k < |table| && table[k] == held[j];
        assert held[j] in held;
      }
      SharesOfUser(total, supply, held, table[i].user);
      InsertedOthers(s.accounts.claims, d, Shares(total, supply, held), (d, table[i].user));
    }
  }

  lemma OtherClaimsStay(s: Books, d: DistributionId, total: real, supply: real, table: seq<HoldingRow>,
                        key: (DistributionId, UserId))
    requires key.0 != d || forall i :: 0 <= i < |table| ==> table[i].user != key.1
    ensures var after := DividendNext(s, Distribute(d, total, supply, table)).accounts.claims;
            (key in after <==> key in s.accounts.claims) && (key in after ==> after[key] == s.accounts.claims[key])
  {
    if supply > 0.0 {
      HeldRows(table);
      var held := Held(table);
      forall j | 0 <= j < |held| && key.0 == d
        ensures held[j].user != key.1
      {
        assert held[j] in held;
        var i :| 0 <= i < |table| && table[i] == held[j];
      }
      if key.0 == d {
        SharesOfUser(total, supply, held, key.1);
      }
      InsertedOthers(s.accounts.claims, d, Shares(total, supply, held), key);
    }
  }
}
