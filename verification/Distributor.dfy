/**
 Claiming a distribution on chain: the service derives a proof for each claim, the contract checks it against the
 published root and pays each address once.
 */
module Distributor {
  import opened Common
  import opened Sums
  import opened Merkle

  type Address = nat
  type DistributionId = nat

  type LeafHash = (Address, nat) -> Digest

  /** One entry of a distribution: a wallet and an amount in the token's smallest unit. */
  datatype Entry = Entry(user: Address, amount: nat)

  function LeavesOf(leafHash: LeafHash, entries: seq<Entry>): (leaves: seq<Digest>)
    ensures |leaves| == |entries|
  {
    seq<Digest>(|entries|, i requires 0 <= i < |entries| => leafHash(entries[i].user, entries[i].amount))
  }

  // ----- The service side

  /** A claim row; a user without a wallet gets the zero address. */
  datatype ClaimRow = ClaimRow(userId: nat, wallet: Option<Address>, amount: nat)

  const ZERO_ADDRESS: Address := 0

  function EntriesOf(claims: seq<ClaimRow>): (entries: seq<Entry>)
    ensures |entries| == |claims|
  {
    seq(|claims|, i requires 0 <= i < |claims| =>
      Entry(if claims[i].wallet.Some? then claims[i].wallet.value else ZERO_ADDRESS, claims[i].amount))
  }

  /** The digest of a claim row: of its wallet, or of the address zero where there is none, and its amount. */
  predicate IsLeafOf(leafHash: LeafHash, leaf: Digest, c: ClaimRow) {
    match c.wallet
    case Some(wallet) => leaf == leafHash(wallet, c.amount)
    case None => leaf == leafHash(0, c.amount)
  }

  lemma LeavesOfRows(leafHash: LeafHash, claims: seq<ClaimRow>)
    ensures var leaves := LeavesOf(leafHash, EntriesOf(claims));
            |leaves| == |claims| && forall i :: 0 <= i < |claims| ==> IsLeafOf(leafHash, leaves[i], claims[i])
  {
  }

  /** The root over the digests of all claim rows, in their order. */
  ghost predicate IsRootOf(h: PairHash, leafHash: LeafHash, root: Digest, claims: seq<ClaimRow>) {
    exists leaves ::
      && |leaves| == |claims| && (forall i :: 0 <= i < |claims| ==> IsLeafOf(leafHash, leaves[i], claims[i]))
      && Root(h, leaves) == Some(root)
  }

  datatype ProofError = ClaimsNotGenerated | NoClaimForUser

  datatype ClaimProof = ClaimProof(amount: nat, root: Digest, proof: seq<Digest>)

  /** A proof of a claim row: its digest folds to the root of all rows. */
  ghost predicate Proves(h: PairHash, leafHash: LeafHash, claims: seq<ClaimRow>, i: nat, p: ClaimProof) {
    && i < |claims|
    && p.amount == claims[i].amount
    && IsRootOf(h, leafHash, p.root, claims)
    && exists leaf :: IsLeafOf(leafHash, leaf, claims[i]) && Fold(h, leaf, p.proof) == p.root
  }

  /** The proof handed to a user is for the user's first claim, under the root of all the rows. */
  method GetClaimProof(h: PairHash, leafHash: LeafHash, claims: seq<ClaimRow>, userId: nat)
    returns (r: Result<ClaimProof, ProofError>)
    ensures claims == [] ==> r == Err(ClaimsNotGenerated)
    ensures claims != [] && (forall c :: c in claims ==> c.userId != userId) ==> r == Err(NoClaimForUser)
    ensures (exists c :: c in claims && c.userId == userId) ==>
              && r.Ok?
              && exists i :: 0 <= i < |claims|
                          && claims[i].userId == userId
                          && (forall j :: 0 <= j < i ==> claims[j].userId != userId)
                          && Proves(h, leafHash, claims, i, r.value)
  {
    if |claims| == 0 {
      return Err(ClaimsNotGenerated);
    }
    var i := 0;
    while i < |claims| && claims[i].userId != userId
      invariant 0 <= i <= |claims|
      invariant forall j :: 0 <= j < i ==> claims[j].userId != userId
    {
      i := i + 1;
    }
    if i == |claims| {
      return Err(NoClaimForUser);
    }
    var leaves := LeavesOf(leafHash, EntriesOf(claims));
    var tree := BuildMerkleTree(h, leaves);
    var root := tree[|tree| - 1][0];
    var proof := BuildMerkleProof(h, leaves, i);
    LeavesOfRows(leafHash, claims);
    assert IsLeafOf(leafHash, leaves[i], claims[i]);
    r := Ok(ClaimProof(claims[i].amount, root, proof));
    assert Proves(h, leafHash, claims, i, r.value);
  }

  // ----- The contract side

  /** The model's own note of one token transfer to a claimant. */
  datatype Payment = Payment(distribution: DistributionId, user: Address, amount: nat)

  /** The contract's storage, and the tokens it holds. */
  datatype Vault = Vault(
    owner: Address, roots: map<DistributionId, Digest>, claimed: set<(DistributionId, Address)>, funds: nat,
    paid: seq<Payment>)

  function NewVault(owner: Address): Vault {
    Vault(owner, map[], {}, 0, [])
  }

  /** The zero root stands for a distribution that does not exist. */
  function RootOf(v: Vault, d: DistributionId): Digest {
    if d in v.roots then v.roots[d] else 0
  }

  /** Publishing takes the whole amount from the sender; canPay says whether the sender's balance and allowance let it.
      */
  function Created(v: Vault, sender: Address, d: DistributionId, root: Digest, total: nat, canPay: bool)
    : Result<Vault, ()>
  {
    if sender != v.owner then Err(())
    else if RootOf(v, d) != 0 then Err(())
    else if !canPay then Err(())
    else Ok(v.(roots := v.roots[d := root], funds := v.funds + total))
  }

  function Claimed(
    h: PairHash, leafHash: LeafHash, v: Vault, sender: Address, d: DistributionId, amount: nat, proof: seq<Digest>)
    : Result<Vault, ()>
  {
    if (d, sender) in v.claimed then Err(())
    else if RootOf(v, d) == 0 then Err(())
    else if Fold(h, leafHash(sender, amount), proof) != RootOf(v, d) then Err(())
    else if amount > v.funds then Err(())
    else Ok(v.(claimed := v.claimed + {(d, sender)}, funds := v.funds - amount,
               paid := v.paid + [Payment(d, sender, amount)]))
  }

  /** Calls by anybody; a receipt is a transfer of tokens to the contract that does not go through it. */
  datatype Call =
    | Create(sender: Address, distribution: DistributionId, root: Digest, total: nat, canPay: bool)
    | Claim(sender: Address, distribution: DistributionId, amount: nat, proof: seq<Digest>)
    | Receive(total: nat)

  function Outcome(h: PairHash, leafHash: LeafHash, v: Vault, call: Call): Result<Vault, ()> {
    match call
    case Create(sender, d, root, total, canPay) => Created(v, sender, d, root, total, canPay)
    case Claim(sender, d, amount, proof) => Claimed(h, leafHash, v, sender, d, amount, proof)
    case Receive(total) => Ok(v.(funds := v.funds + total))
  }

  /** A call that reverts changes nothing. */
  function Step(h: PairHash, leafHash: LeafHash, v: Vault, call: Call): Vault {
    var r := Outcome(h, leafHash, v, call);
    if r.Ok? then r.value else v
  }

  function After(h: PairHash, leafHash: LeafHash, v: Vault, calls: seq<Call>): Vault {
    if calls == [] then v
    else Step(h, leafHash, After(h, leafHash, v, calls[..|calls| - 1]), calls[|calls| - 1])
  }

  // ----- One claim

  /** What a claim for something that is no entry would have to exhibit: an entry with the digest of what is claimed,
      or a forgery of a pair. */
  ghost predicate Forged(
    h: PairHash, leafHash: LeafHash, entries: seq<Entry>, sender: Address, amount: nat, proof: seq<Digest>)
  {
    || (exists e :: e in entries && e != Entry(sender, amount)
                    && leafHash(e.user, e.amount) == leafHash(sender, amount))
    || exists f :: Forges(h, LeavesOf(leafHash, entries), leafHash(sender, amount), proof, f)
  }

  /** An ideal hash: different entries and different sorted pairs have different digests, and an entry's digest is no
      pair's. */
  ghost predicate CollisionFree(h: PairHash, leafHash: LeafHash) {
    && InjectiveOnSortedPairs(h)
    && (forall user, amount :: NotAPair(h, leafHash(user, amount)))
    && (forall u, a, w, b :: leafHash(u, a) == leafHash(w, b) ==> u == w && a == b)
  }

  lemma LeafOfEntry(leafHash: LeafHash, entries: seq<Entry>, leaf: Digest) returns (e: Entry)
    requires leaf in LeavesOf(leafHash, entries)
    ensures e in entries && leafHash(e.user, e.amount) == leaf
  {
    var leaves := LeavesOf(leafHash, entries);
    var i :| 0 <= i < |leaves| && leaves[i] == leaf;
    e := entries[i];
  }

  /** An ideal hash has no forgeries. */
  lemma IdealIsNeverForged(
    h: PairHash, leafHash: LeafHash, entries: seq<Entry>, sender: Address, amount: nat, proof: seq<Digest>)
    requires CollisionFree(h, leafHash)
    ensures !Forged(h, leafHash, entries, sender, amount, proof)
  {
    var leaves, node := LeavesOf(leafHash, entries), leafHash(sender, amount);
    assert NotAPair(h, node);
    forall leaf | leaf in leaves
      ensures NotAPair(h, leaf)
    {
      var e := LeafOfEntry(leafHash, entries, leaf);
      assert NotAPair(h, leafHash(e.user, e.amount));
    }
  }

  /** A distribution whose published root is that of its entries. */
  ghost predicate Publishes(h: PairHash, leafHash: LeafHash, v: Vault, d: DistributionId, entries: seq<Entry>) {
    RootOf(v, d) != 0 && Root(h, LeavesOf(leafHash, entries)) == Some(RootOf(v, d))
  }

  /** The contract pays out a claim only for an entry of the distribution: any other proof exhibits a forgery. */
  lemma AcceptedClaimIsAnEntry(
    h: PairHash, leafHash: LeafHash, v: Vault, sender: Address, d: DistributionId, amount: nat, proof: seq<Digest>,
    entries: seq<Entry>)
    requires Publishes(h, leafHash, v, d, entries) && Claimed(h, leafHash, v, sender, d, amount, proof).Ok?
    ensures Entry(sender, amount) in entries || Forged(h, leafHash, entries, sender, amount, proof)
  {
    var f := AcceptedOrForged(h, LeavesOf(leafHash, entries), leafHash(sender, amount), proof);
    if f.None? {
      var e := LeafOfEntry(leafHash, entries, leafHash(sender, amount));
    }
  }

  /** With the service's proof an entry's owner is paid exactly once, and exactly when the contract holds enough. */
  lemma EntryCanBeClaimed(h: PairHash, leafHash: LeafHash, v: Vault, d: DistributionId, entries: seq<Entry>, i: nat)
    requires Publishes(h, leafHash, v, d, entries) && i < |entries|
    ensures Claimed(h, leafHash, v, entries[i].user, d, entries[i].amount,
                    ProofFrom(h, LeavesOf(leafHash, entries), i)).Ok?
       <==> (d, entries[i].user) !in v.claimed && entries[i].amount <= v.funds
  {
    ProofsAreAccepted(h, LeavesOf(leafHash, entries), i);
  }

  /** From the claim rows to the token: once the root of all rows is published, a proof of a row with a wallet lets that
      wallet claim the row's amount if and only if it is not marked yet and the contract holds enough. */
  lemma ProofPaysWallet(h: PairHash, leafHash: LeafHash, claims: seq<ClaimRow>, i: nat, p: ClaimProof, v: Vault,
                        d: DistributionId)
    requires Proves(h, leafHash, claims, i, p) && claims[i].wallet.Some?
    requires d in v.roots && v.roots[d] == p.root != 0
    ensures Claimed(h, leafHash, v, claims[i].wallet.value, d, claims[i].amount, p.proof).Ok?
       <==> (d, claims[i].wallet.value) !in v.claimed && claims[i].amount <= v.funds
  {
  }

  lemma RootIsOfEntries(h: PairHash, leafHash: LeafHash, root: Digest, claims: seq<ClaimRow>)
    requires IsRootOf(h, leafHash, root, claims)
    ensures Root(h, LeavesOf(leafHash, EntriesOf(claims))) == Some(root)
  {
    var leaves :| && |leaves| == |claims|
                  && (forall j :: 0 <= j < |claims| ==> IsLeafOf(leafHash, leaves[j], claims[j]))
                  && Root(h, leaves) == Some(root);
    LeavesOfRows(leafHash, claims);
    assert leaves == LeavesOf(leafHash, EntriesOf(claims));
  }

  /** Once the root of all claim rows is published, with an ideal hash only the wallet of a row is paid, and only the
      row's amount; a row without a wallet is the address zero's. */
  lemma OnlyRowsArePaid(
    h: PairHash, leafHash: LeafHash, claims: seq<ClaimRow>, v: Vault, d: DistributionId, sender: Address, amount: nat,
    proof: seq<Digest>)
    requires CollisionFree(h, leafHash)
    requires d in v.roots && IsRootOf(h, leafHash, v.roots[d], claims)
    requires Claimed(h, leafHash, v, sender, d, amount, proof).Ok?
    ensures exists c :: c in claims && c.amount == amount
                     && (c.wallet == Some(sender) || (c.wallet == None && sender == 0))
  {
    var entries := EntriesOf(claims);
    RootIsOfEntries(h, leafHash, v.roots[d], claims);
    AcceptedClaimIsAnEntry(h, leafHash, v, sender, d, amount, proof, entries);
    IdealIsNeverForged(h, leafHash, entries, sender, amount, proof);
    var j :| 0 <= j < |entries| && entries[j] == Entry(sender, amount);
    assert claims[j] in claims;
  }

  /** A claim is accepted exactly for an unmarked sender whose digest folds to the published root and whom the contract
      can pay; it marks the sender, takes the amount out of the tokens held, and leaves roots and owner alone. */
  lemma ClaimEffect(
    h: PairHash, leafHash: LeafHash, v: Vault, sender: Address, d: DistributionId, amount: nat, proof: seq<Digest>)
    ensures Claimed(h, leafHash, v, sender, d, amount, proof).Ok? <==>
              && (d, sender) !in v.claimed
              && d in v.roots && v.roots[d] == Fold(h, leafHash(sender, amount), proof) != 0
              && amount <= v.funds
    ensures Claimed(h, leafHash, v, sender, d, amount, proof).Ok? ==>
              var after := Claimed(h, leafHash, v, sender, d, amount, proof).value;
              && after.funds + amount == v.funds
              && after.claimed == v.claimed + {(d, sender)}
              && after.paid == v.paid + [Payment(d, sender, amount)]
              && (after.owner, after.roots) == (v.owner, v.roots)
  {
  }

  /** Only the owner publishes, and a root that is not zero only once; the total comes in with it. */
  lemma PublishEffect(v: Vault, sender: Address, d: DistributionId, root: Digest, total: nat, canPay: bool)
    ensures Created(v, sender, d, root, total, canPay).Ok?
       <==> sender == v.owner && canPay && (d in v.roots ==> v.roots[d] == 0)
    ensures Created(v, sender, d, root, total, canPay).Ok? ==>
              var after := Created(v, sender, d, root, total, canPay).value;
              && after.funds == v.funds + total
              && after.roots == v.roots[d := root]
              && (after.owner, after.claimed, after.paid) == (v.owner, v.claimed, v.paid)
  {
  }

  // ----- Any run of calls

  /** The tokens that have come in over a run: the totals of the distributions that were published, and receipts. */
  function TakenIn(h: PairHash, leafHash: LeafHash, owner: Address, calls: seq<Call>): nat {
    if calls == [] then 0
    else
      var n := |calls| - 1;
      var before := After(h, leafHash, NewVault(owner), calls[..n]);
      TakenIn(h, leafHash, owner, calls[..n])
      + match calls[n]
        case Create(sender, d, _, total, canPay) =>
          if sender == owner && canPay && (d in before.roots ==> before.roots[d] == 0) then total else 0
        case Claim(_, _, _, _) => 0
        case Receive(total) => total
  }

  lemma {:induction false} OwnerStays(h: PairHash, leafHash: LeafHash, owner: Address, calls: seq<Call>)
    ensures After(h, leafHash, NewVault(owner), calls).owner == owner
  {
    if calls != [] {
      OwnerStays(h, leafHash, owner, calls[..|calls| - 1]);
    }
  }

  /** Over any run of calls by anybody, from the contract's creation: what it holds and what it has paid out are
      together exactly what has come in. */
  lemma {:induction false} FundsAccountedFor(h: PairHash, leafHash: LeafHash, owner: Address, calls: seq<Call>)
    ensures var v := After(h, leafHash, NewVault(owner), calls);
            v.funds as real + Sum(v.paid, (p: Payment) => p.amount as real)
            == TakenIn(h, leafHash, owner, calls) as real
  {
    if calls != [] {
      var n := |calls| - 1;
      var before, call := After(h, leafHash, NewVault(owner), calls[..n]), calls[n];
      FundsAccountedFor(h, leafHash, owner, calls[..n]);
      OwnerStays(h, leafHash, owner, calls[..n]);
      if call.Claim? {
        SumSnoc(before.paid, Payment(call.distribution, call.sender, call.amount), (p: Payment) => p.amount as real);
      }
    }
  }

  /** Every payment is of a published distribution, to somebody marked, and no two of one distribution are alike. */
  ghost predicate Marked(v: Vault) {
    && (forall i :: 0 <= i < |v.paid| ==>
          RootOf(v, v.paid[i].distribution) != 0 && (v.paid[i].distribution, v.paid[i].user) in v.claimed)
    && (forall i, j :: 0 <= i < j < |v.paid| && v.paid[i].distribution == v.paid[j].distribution ==>
          v.paid[i].user != v.paid[j].user)
  }

  lemma {:induction false} RunsAreMarked(h: PairHash, leafHash: LeafHash, owner: Address, calls: seq<Call>)
    ensures Marked(After(h, leafHash, NewVault(owner), calls))
  {
    if calls != [] {
      RunsAreMarked(h, leafHash, owner, calls[..|calls| - 1]);
    }
  }

  /** Payments of the distribution went to its own entries, and to no address twice. */
  ghost predicate PaidProperly(paid: seq<Payment>, d: DistributionId, entries: seq<Entry>) {
    && (forall i :: 0 <= i < |paid| && paid[i].distribution == d ==> Entry(paid[i].user, paid[i].amount) in entries)
    && (forall i, j :: 0 <= i < j < |paid| && paid[i].distribution == paid[j].distribution == d ==>
          paid[i].user != paid[j].user)
  }

  /** No call claims from the distribution by exhibiting a weakness of the hash. */
  ghost predicate Unforged(h: PairHash, leafHash: LeafHash, calls: seq<Call>, d: DistributionId, entries: seq<Entry>) {
    forall n :: 0 <= n < |calls| && calls[n].Claim? && calls[n].distribution == d ==>
      !Forged(h, leafHash, entries, calls[n].sender, calls[n].amount, calls[n].proof)
  }

  lemma StepPaysProperly(h: PairHash, leafHash: LeafHash, v: Vault, call: Call, d: DistributionId, entries: seq<Entry>)
    requires Marked(v) && (Publishes(h, leafHash, v, d, entries) ==> PaidProperly(v.paid, d, entries))
    requires Unforged(h, leafHash, [call], d, entries)
    requires Publishes(h, leafHash, Step(h, leafHash, v, call), d, entries)
    ensures PaidProperly(Step(h, leafHash, v, call).paid, d, entries)
  {
    assert call == [call][0];
    if call.Claim? && call.distribution == d && Outcome(h, leafHash, v, call).Ok? {
      AcceptedClaimIsAnEntry(h, leafHash, v, call.sender, d, call.amount, call.proof, entries);
    }
  }

  function AmountIn(d: DistributionId): Payment -> real {
    (p: Payment) => if p.distribution == d then p.amount as real else 0.0
  }

  function EntryAmount(): Entry -> real {
    (e: Entry) => e.amount as real
  }

  /** Payments to different addresses, each for an entry, add up to no more than the entries. */
  lemma {:induction false} PaymentsWithinEntries(paid: seq<Payment>, d: DistributionId, entries: seq<Entry>)
    requires PaidProperly(paid, d, entries)
    ensures Sum(paid, AmountIn(d)) <= Sum(entries, EntryAmount())
    decreases |paid|
  {
    if paid == [] {
      SumNonNegative(entries, EntryAmount());
    } else {
      var n := |paid| - 1;
      var last := paid[n];
      if last.distribution != d {
        PaymentsWithinEntries(paid[..n], d, entries);
      } else {
        var e :| 0 <= e < |entries| && entries[e] == Entry(last.user, last.amount);
        var others := entries[..e] + entries[e + 1..];
        forall i | 0 <= i < n && paid[i].distribution == d
          ensures Entry(paid[i].user, paid[i].amount) in others
        {
          var k :| 0 <= k < |entries| && entries[k] == Entry(paid[i].user, paid[i].amount);
          assert others[if k < e then k else k - 1] == entries[k];
        }
        PaymentsWithinEntries(paid[..n], d, others);
        SumWithout(entries, e, EntryAmount());
      }
    }
  }

  lemma {:induction false} RunsPayProperly(
    h: PairHash, leafHash: LeafHash, owner: Address, calls: seq<Call>, d: DistributionId, entries: seq<Entry>)
    requires Unforged(h, leafHash, calls, d, entries)
    requires Publishes(h, leafHash, After(h, leafHash, NewVault(owner), calls), d, entries)
    ensures PaidProperly(After(h, leafHash, NewVault(owner), calls).paid, d, entries)
  {
    if calls != [] {
      var n := |calls| - 1;
      var before := After(h, leafHash, NewVault(owner), calls[..n]);
      RunsAreMarked(h, leafHash, owner, calls[..n]);
      if Publishes(h, leafHash, before, d, entries) {
        RunsPayProperly(h, leafHash, owner, calls[..n], d, entries);
      }
      StepPaysProperly(h, leafHash, before, calls[n], d, entries);
    }
  }

  /** From the contract's creation, over any run of calls by anybody: a published distribution pays only its own
      entries, each address at most once, and never more in all than the entries add up to. */
  lemma PayoutsAreBounded(
    h: PairHash, leafHash: LeafHash, owner: Address, calls: seq<Call>, d: DistributionId, entries: seq<Entry>)
    requires Unforged(h, leafHash, calls, d, entries)
    requires Publishes(h, leafHash, After(h, leafHash, NewVault(owner), calls), d, entries)
    ensures var after := After(h, leafHash, NewVault(owner), calls);
            && PaidProperly(after.paid, d, entries)
            && Sum(after.paid, AmountIn(d)) <= Sum(entries, EntryAmount())
  {
    RunsPayProperly(h, leafHash, owner, calls, d, entries);
    PaymentsWithinEntries(After(h, leafHash, NewVault(owner), calls).paid, d, entries);
  }

  // ----- Solvency

  /** The entries behind every distribution. */
  type Entitlements = DistributionId -> seq<Entry>

  /** Whenever a call publishes a distribution, it does so with the root of its entries and pays in at least their sum.
      */
  ghost predicate Funded(h: PairHash, leafHash: LeafHash, owner: Address, calls: seq<Call>, due: Entitlements) {
    calls != [] ==>
      var n := |calls| - 1;
      var before, call := After(h, leafHash, NewVault(owner), calls[..n]), calls[n];
      && Funded(h, leafHash, owner, calls[..n], due)
      && (call.Create? && call.root != 0 && Outcome(h, leafHash, before, call).Ok? ==>
            && Root(h, LeavesOf(leafHash, due(call.distribution))) == Some(call.root)
            && Sum(due(call.distribution), EntryAmount()) <= call.total as real)
  }

  /** What a distribution owes in all once it is published. */
  function Owes(due: Entitlements): (DistributionId, Digest) -> real {
    (d: DistributionId, root: Digest) => if root == 0 then 0.0 else Sum(due(d), EntryAmount())
  }

  function AnyAmount(): Payment -> real {
    (p: Payment) => p.amount as real
  }

  /** Published roots are those of the entries, and what is held and what was paid cover what is owed. */
  ghost predicate Covers(h: PairHash, leafHash: LeafHash, v: Vault, due: Entitlements) {
    && (forall d :: RootOf(v, d) != 0 ==> Publishes(h, leafHash, v, d, due(d)))
    && SumMap(v.roots, Owes(due)) <= v.funds as real + Sum(v.paid, AnyAmount())
  }

  lemma StepCovers(h: PairHash, leafHash: LeafHash, v: Vault, call: Call, due: Entitlements)
    requires Covers(h, leafHash, v, due)
    requires call.Create? && call.root != 0 && Outcome(h, leafHash, v, call).Ok? ==>
               && Root(h, LeavesOf(leafHash, due(call.distribution))) == Some(call.root)
               && Sum(due(call.distribution), EntryAmount()) <= call.total as real
    ensures Covers(h, leafHash, Step(h, leafHash, v, call), due)
  {
    var after := Step(h, leafHash, v, call);
    if Outcome(h, leafHash, v, call).Ok? {
      match call
      case Create(_, d, root, _, _) => SumMapPut(v.roots, d, root, Owes(due));
      case Claim(sender, d, amount, _) => SumSnoc(v.paid, Payment(d, sender, amount), AnyAmount());
      case Receive(_) =>
    }
    forall d | RootOf(after, d) != 0
      ensures Publishes(h, leafHash, after, d, due(d))
    {
      assert RootOf(v, d) != 0 ==> Publishes(h, leafHash, v, d, due(d));
    }
  }

  lemma {:induction false} RunsCover(
    h: PairHash, leafHash: LeafHash, owner: Address, calls: seq<Call>, due: Entitlements)
    requires Funded(h, leafHash, owner, calls, due)
    ensures Covers(h, leafHash, After(h, leafHash, NewVault(owner), calls), due)
  {
    if calls != [] {
      var n := |calls| - 1;
      RunsCover(h, leafHash, owner, calls[..n], due);
      StepCovers(h, leafHash, After(h, leafHash, NewVault(owner), calls[..n]), calls[n], due);
    }
  }

  function AmountAmong(roots: map<DistributionId, Digest>): Payment -> real {
    (p: Payment) => if p.distribution in roots then p.amount as real else 0.0
  }

  lemma {:induction false} AmongWithout(paid: seq<Payment>, roots: map<DistributionId, Digest>, d: DistributionId)
    requires d in roots
    ensures Sum(paid, AmountAmong(roots)) == Sum(paid, AmountAmong(roots - {d})) + Sum(paid, AmountIn(d))
  {
    if paid != [] {
      AmongWithout(paid[..|paid| - 1], roots, d);
    }
  }

  /** Distributions that each pay no more than they owe do not pay more together. */
  lemma {:induction false} PaidWithinOwed(paid: seq<Payment>, roots: map<DistributionId, Digest>, due: Entitlements)
    requires forall d :: d in roots ==> Sum(paid, AmountIn(d)) <= Owes(due)(d, roots[d])
    ensures Sum(paid, AmountAmong(roots)) <= SumMap(roots, Owes(due))
    decreases |roots|
  {
    if roots == map[] {
      SumCong(paid, AmountAmong(roots), _ => 0.0);
      SumOfZeros(paid);
    } else {
      assert roots.Keys != {};
      var d :| d in roots;
      AmongWithout(paid, roots, d);
      SumMapRemove(roots, d, Owes(due));
      PaidWithinOwed(paid, roots - {d}, due);
    }
  }

  lemma {:induction false} SumOfZeros(paid: seq<Payment>)
    ensures Sum(paid, (_: Payment) => 0.0) == 0.0
  {
    if paid != [] {
      SumOfZeros(paid[..|paid| - 1]);
    }
  }

  lemma PaidWithOneMore(
    h: PairHash, leafHash: LeafHash, owner: Address, calls: seq<Call>, due: Entitlements, next: Payment,
    d: DistributionId)
    requires Funded(h, leafHash, owner, calls, due) && Unforged(h, leafHash, calls, d, due(d))
    requires var v := After(h, leafHash, NewVault(owner), calls);
             && RootOf(v, next.distribution) != 0 && (next.distribution, next.user) !in v.claimed
             && Entry(next.user, next.amount) in due(next.distribution)
             && d in v.roots
    ensures var v := After(h, leafHash, NewVault(owner), calls);
            Sum(v.paid + [next], AmountIn(d)) <= Owes(due)(d, v.roots[d])
  {
    var v := After(h, leafHash, NewVault(owner), calls);
    RunsCover(h, leafHash, owner, calls, due);
    RunsAreMarked(h, leafHash, owner, calls);
    if RootOf(v, d) == 0 {
      PaymentsWithinEntries(v.paid + [next], d, []);
    } else {
      RunsPayProperly(h, leafHash, owner, calls, d, due(d));
      PaymentsWithinEntries(v.paid + [next], d, due(d));
    }
  }

  lemma EnoughForOneMore(
    roots: map<DistributionId, Digest>, funds: nat, paid: seq<Payment>, due: Entitlements, next: Payment)
    requires SumMap(roots, Owes(due)) <= funds as real + Sum(paid, AnyAmount())
    requires forall p :: p in paid + [next] ==> p.distribution in roots
    requires forall d :: d in roots ==> Sum(paid + [next], AmountIn(d)) <= Owes(due)(d, roots[d])
    ensures next.amount <= funds
  {
    PaidWithinOwed(paid + [next], roots, due);
    SumCong(paid + [next], AmountAmong(roots), AnyAmount());
    SumSnoc(paid, next, AnyAmount());
  }

  /** Solvency: when every distribution was published with the root of its entries and at least their sum, then over any
      run of calls by anybody, every entry whose address has not claimed yet can still be claimed. */
  lemma EntriesStayClaimable(
    h: PairHash, leafHash: LeafHash, owner: Address, calls: seq<Call>, due: Entitlements, d: DistributionId, i: nat)
    requires Funded(h, leafHash, owner, calls, due)
    requires forall each :: Unforged(h, leafHash, calls, each, due(each))
    requires RootOf(After(h, leafHash, NewVault(owner), calls), d) != 0 && i < |due(d)|
    requires (d, due(d)[i].user) !in After(h, leafHash, NewVault(owner), calls).claimed
    ensures Claimed(h, leafHash, After(h, leafHash, NewVault(owner), calls), due(d)[i].user, d, due(d)[i].amount,
                    ProofFrom(h, LeavesOf(leafHash, due(d)), i)).Ok?
  {
    EntryIsAffordable(h, leafHash, owner, calls, due, Payment(d, due(d)[i].user, due(d)[i].amount));
    RunsCover(h, leafHash, owner, calls, due);
    EntryCanBeClaimed(h, leafHash, After(h, leafHash, NewVault(owner), calls), d, due(d), i);
  }

  lemma EntryIsAffordable(
    h: PairHash, leafHash: LeafHash, owner: Address, calls: seq<Call>, due: Entitlements, next: Payment)
    requires Funded(h, leafHash, owner, calls, due)
    requires forall each :: Unforged(h, leafHash, calls, each, due(each))
    requires var v := After(h, leafHash, NewVault(owner), calls);
             && RootOf(v, next.distribution) != 0 && (next.distribution, next.user) !in v.claimed
             && Entry(next.user, next.amount) in due(next.distribution)
    ensures next.amount <= After(h, leafHash, NewVault(owner), calls).funds
  {
    var v := After(h, leafHash, NewVault(owner), calls);
    RunsCover(h, leafHash, owner, calls, due);
    RunsAreMarked(h, leafHash, owner, calls);
    forall each | each in v.roots
      ensures Sum(v.paid + [next], AmountIn(each)) <= Owes(due)(each, v.roots[each])
    {
      assert Unforged(h, leafHash, calls, each, due(each));
      PaidWithOneMore(h, leafHash, owner, calls, due, next, each);
    }
    EnoughForOneMore(v.roots, v.funds, v.paid, due, next);
  }

  /** Nothing in the contract ties what is paid in to the entries: published without funds, an entry cannot be claimed.
      */
  lemma UnfundedIsUnclaimable(h: PairHash, leafHash: LeafHash, owner: Address, user: Address)
    requires leafHash(user, 1) != 0
    ensures var publish := Create(owner, 0, leafHash(user, 1), 0, true);
            var v := After(h, leafHash, NewVault(owner), [publish]);
            && Publishes(h, leafHash, v, 0, [Entry(user, 1)])
            && Claimed(h, leafHash, v, user, 0, 1, []).Err?
  {
    var publish := Create(owner, 0, leafHash(user, 1), 0, true);
    assert [publish][..0] == [];
    assert After(h, leafHash, NewVault(owner), []) == NewVault(owner);
    assert LeavesOf(leafHash, [Entry(user, 1)]) == [leafHash(user, 1)];
  }

  // ----- The contract itself

  class DividendDistributor {
    const owner: Address
    const h: PairHash
    const leafHash: LeafHash
    var distributionRoots: map<DistributionId, Digest>
    var hasClaimed: set<(DistributionId, Address)>
    var funds: nat
    var paid: seq<Payment>

    ghost function Contents(): Vault
      reads this
    {
      Vault(owner, distributionRoots, hasClaimed, funds, paid)
    }

    constructor (owner: Address, h: PairHash, leafHash: LeafHash)
      ensures this.owner == owner && this.h == h && this.leafHash == leafHash
      ensures Contents() == NewVault(owner)
    {
      this.owner, this.h, this.leafHash := owner, h, leafHash;
      distributionRoots, hasClaimed, funds, paid := map[], {}, 0, [];
    }

    /** A failing transfer reverts the whole call. */
    method CreateDistribution(sender: Address, d: DistributionId, root: Digest, totalAmount: nat, canPay: bool)
      returns (reverted: bool)
      modifies this
      ensures reverted <==> sender != owner || RootOf(old(Contents()), d) != 0 || !canPay
      ensures Contents() == Step(h, leafHash, old(Contents()), Create(sender, d, root, totalAmount, canPay))
    {
      if sender != owner || (d in distributionRoots && distributionRoots[d] != 0) || !canPay {
        return true;
      }
      distributionRoots := distributionRoots[d := root];
      funds := funds + totalAmount;
      return false;
    }

    method ClaimDividend(sender: Address, d: DistributionId, amount: nat, merkleProof: seq<Digest>)
      returns (reverted: bool)
      modifies this
      ensures Contents() == Step(h, leafHash, old(Contents()), Claim(sender, d, amount, merkleProof))
      ensures !reverted <==> Claimed(h, leafHash, old(Contents()), sender, d, amount, merkleProof).Ok?
    {
      if (d, sender) in hasClaimed || d !in distributionRoots || distributionRoots[d] == 0 {
        return true;
      }
      var verified := Verify(h, merkleProof, distributionRoots[d], leafHash(sender, amount));
      if !verified || amount > funds {
        return true;
      }
      hasClaimed := hasClaimed + {(d, sender)};
      funds := funds - amount;
      paid := paid + [Payment(d, sender, amount)];
      return false;
    }
  }

  /** The contract library's verification loop. */
  method Verify(h: PairHash, proof: seq<Digest>, root: Digest, leaf: Digest) returns (valid: bool)
    ensures valid <==> Fold(h, leaf, proof) == root
  {
    var computed := leaf;
    var i := 0;
    while i < |proof|
      invariant 0 <= i <= |proof|
      invariant computed == Fold(h, leaf, proof[..i])
    {
      computed := HashPair(h, computed, proof[i]);
      i := i + 1;
      assert proof[..i][..i - 1] == proof[..i - 1];
    }
    assert proof[..i] == proof;
    return computed == root;
  }
}
