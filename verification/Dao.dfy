/** Governance proposals: voting on a frozen snapshot, finalisation and execution. */
module Dao {
  import opened Common
  import opened Sums
  import opened Balances
  import opened Snapshots

  type ProposalId = nat
  type Time = int

  datatype ProposalStatus = Active | Passed | Rejected | Executed

  /** The supply is that of the asset, which nothing changes once it is listed. */
  datatype Proposal = Proposal(asset: AssetId, supply: real, snapshotDate: Time, endDate: Time, status: ProposalStatus)

  datatype Vote = Vote(isFor: bool, power: real)

  type VoterKey = (ProposalId, UserId)

  /** Proposals, voting snapshots and votes; the last two are unique by proposal and user. */
  datatype Registry = Registry(proposals: seq<Proposal>, snapshots: map<VoterKey, real>, votes: map<VoterKey, Vote>)

  datatype VoteError = ProposalNotFound | NotActive | NotOpenYet | Ended | NoVotingPower | AlreadyVoted | NotPassed

  // ----- Steps

  function CastVote(s: Registry, user: UserId, p: ProposalId, isFor: bool, now: Time): Result<Registry, VoteError> {
    if p >= |s.proposals| then Err(ProposalNotFound)
    else if s.proposals[p].status != Active then Err(NotActive)
    else if now < s.proposals[p].snapshotDate then Err(NotOpenYet)
    else if now > s.proposals[p].endDate then Err(Ended)
    else if (p, user) !in s.snapshots || s.snapshots[(p, user)] <= 0.0 then Err(NoVotingPower)
    else if (p, user) in s.votes then Err(AlreadyVoted)
    else Ok(s.(votes := s.votes[(p, user) := Vote(isFor, s.snapshots[(p, user)])]))
  }

  predicate Snapshotted(s: Registry, p: ProposalId) {
    exists k :: k in s.snapshots && k.0 == p
  }

  /** The bulk insert of one snapshot's rows. */
  function Powers(snapshots: map<VoterKey, real>, p: ProposalId, rows: seq<HoldingRow>): map<VoterKey, real> {
    if rows == [] then snapshots
    else
      var n := |rows| - 1;
      var before := Powers(snapshots, p, rows[..n]);
      if (p, rows[n].user) in before then before else before[(p, rows[n].user) := HeldBy(rows[n])]
  }

  /** A snapshot is taken once, of an active proposal whose date has come. */
  function TakeSnapshot(s: Registry, p: ProposalId, now: Time, table: seq<HoldingRow>): Registry {
    if p >= |s.proposals| || s.proposals[p].status != Active || now < s.proposals[p].snapshotDate || Snapshotted(s, p)
    then s
    else s.(snapshots := Powers(s.snapshots, p, Held(table)))
  }

  function PowerIn(p: ProposalId, onlyFor: bool): (VoterKey, Vote) -> real {
    (k: VoterKey, v: Vote) => if k.0 == p && (v.isFor || !onlyFor) then v.power else 0.0
  }

  /** The tally: the voting power cast in favour, and in all. */
  ghost function ForPower(s: Registry, p: ProposalId): real {
    SumMap(s.votes, PowerIn(p, true))
  }

  ghost function TotalPower(s: Registry, p: ProposalId): real {
    SumMap(s.votes, PowerIn(p, false))
  }

  predicate Approves(forPower: real, totalPower: real, supply: real) {
    totalPower >= supply * 0.2 && totalPower > 0.0 && forPower / totalPower > 0.51
  }

  ghost function Finalize(s: Registry, p: ProposalId, now: Time): Registry {
    if p >= |s.proposals| || s.proposals[p].status != Active || s.proposals[p].endDate > now then s
    else
      var approved := Approves(ForPower(s, p), TotalPower(s, p), s.proposals[p].supply);
      s.(proposals := s.proposals[p := s.proposals[p].(status := if approved then Passed else Rejected)])
  }

  function Execute(s: Registry, p: ProposalId): Result<Registry, VoteError> {
    if p >= |s.proposals| then Err(ProposalNotFound)
    else if s.proposals[p].status != Passed then Err(NotPassed)
    else Ok(s.(proposals := s.proposals[p := s.proposals[p].(status := Executed)]))
  }

  datatype Step =
    | Propose(proposal: Proposal)
    | Cast(user: UserId, p: ProposalId, isFor: bool, now: Time)
    | Snapshot(p: ProposalId, now: Time, table: seq<HoldingRow>)
    | Finish(p: ProposalId, now: Time)
    | Enact(p: ProposalId)

  ghost function Next(s: Registry, step: Step): Registry {
    match step
    case Propose(proposal) => s.(proposals := s.proposals + [proposal.(status := Active)])
    case Cast(user, p, isFor, now) =>
      (match CastVote(s, user, p, isFor, now) case Ok(after) => after case Err(_) => s)
    case Snapshot(p, now, table) => TakeSnapshot(s, p, now, table)
    case Finish(p, now) => Finalize(s, p, now)
    case Enact(p) => (match Execute(s, p) case Ok(after) => after case Err(_) => s)
  }

  ghost function Play(s: Registry, steps: seq<Step>): Registry {
    if steps == [] then s else Next(Play(s, steps[..|steps| - 1]), steps[|steps| - 1])
  }

  // ----- What every run keeps

  ghost predicate Decided(s: Registry, p: ProposalId)
    requires p < |s.proposals|
  {
    s.proposals[p].status != Active ==>
      (s.proposals[p].status in {Passed, Executed}
       <==> Approves(ForPower(s, p), TotalPower(s, p), s.proposals[p].supply))
  }

  /** Every vote is its voter's snapshot power, on a proposal that exists; a proposal is approved, or rejected, as its
      votes say. */
  ghost predicate Lawful(s: Registry) {
    && (forall k :: k in s.votes ==>
          k.0 < |s.proposals| && k in s.snapshots && s.votes[k].power == s.snapshots[k] && s.votes[k].power > 0.0)
    && (forall k :: k in s.snapshots ==> k.0 < |s.proposals| && s.snapshots[k] >= 0.0)
    && (forall p :: 0 <= p < |s.proposals| ==> Decided(s, p))
  }

  lemma {:induction false} NoVotes(votes: map<VoterKey, Vote>, p: ProposalId, onlyFor: bool)
    requires forall k :: k in votes ==> k.0 != p
    ensures SumMap(votes, PowerIn(p, onlyFor)) == 0.0
    decreases |votes|
  {
    if votes != map[] {
      assert votes.Keys != {};
      var k :| k in votes;
      SumMapRemove(votes, k, PowerIn(p, onlyFor));
      NoVotes(votes - {k}, p, onlyFor);
    }
  }

  lemma {:induction false} PowersEffect(snapshots: map<VoterKey, real>, p: ProposalId, rows: seq<HoldingRow>)
    ensures var after := Powers(snapshots, p, rows);
            && (forall k :: k in snapshots ==> k in after && after[k] == snapshots[k])
            && (forall k :: k in after && k !in snapshots ==>
                  k.0 == p && exists i :: 0 <= i < |rows| && rows[i].user == k.1 && after[k] == HeldBy(rows[i]))
  {
    if rows != [] {
      PowersEffect(snapshots, p, rows[..|rows| - 1]);
    }
  }

  /** A vote moves the tally of its own, active, proposal only. */
  lemma VoteMovesOneTally(s: Registry, user: UserId, p: ProposalId, isFor: bool, now: Time, q: ProposalId)
    requires CastVote(s, user, p, isFor, now).Ok?
    ensures var after := CastVote(s, user, p, isFor, now).value;
            var power := s.snapshots[(p, user)];
            && TotalPower(after, q) == TotalPower(s, q) + (if q == p then power else 0.0)
            && ForPower(after, q) == ForPower(s, q) + (if q == p && isFor then power else 0.0)
  {
    SumMapPut(s.votes, (p, user), Vote(isFor, s.snapshots[(p, user)]), PowerIn(q, true));
    SumMapPut(s.votes, (p, user), Vote(isFor, s.snapshots[(p, user)]), PowerIn(q, false));
  }

  /** How a proposal's status may move. */
  predicate MayBecome(before: ProposalStatus, after: ProposalStatus) {
    || before == after
    || (before == Active && after in {Passed, Rejected})
    || (before == Passed && after == Executed)
  }

  /** Balances are never negative. */
  ghost predicate FairStep(step: Step) {
    step.Snapshot? ==> forall row :: row in step.table ==> row.available >= 0.0 && row.locked >= 0.0
  }

  /** What a step may do: keep the law, move statuses forward, and add votes to active proposals. */
  ghost predicate Advances(s: Registry, after: Registry) {
    && Lawful(after)
    && |s.proposals| <= |after.proposals|
    && (forall k :: k in s.votes ==> k in after.votes && after.votes[k] == s.votes[k])
    && (forall p :: 0 <= p < |s.proposals| ==> MayBecome(s.proposals[p].status, after.proposals[p].status))
    && (forall p :: 0 <= p < |s.proposals| && s.proposals[p].status != Active ==>
          ForPower(after, p) == ForPower(s, p) && TotalPower(after, p) == TotalPower(s, p))
  }

  lemma CastAdvances(s: Registry, user: UserId, p: ProposalId, isFor: bool, now: Time)
    requires Lawful(s) && CastVote(s, user, p, isFor, now).Ok?
    ensures Advances(s, CastVote(s, user, p, isFor, now).value)
  {
    var after := CastVote(s, user, p, isFor, now).value;
    forall q | 0 <= q < |s.proposals|
      ensures q != p ==> ForPower(after, q) == ForPower(s, q) && TotalPower(after, q) == TotalPower(s, q)
      ensures Decided(after, q)
    {
      VoteMovesOneTally(s, user, p, isFor, now, q);
      assert Decided(s, q);
    }
  }

  lemma SameVotesDecided(s: Registry, after: Registry)
    requires after.proposals == s.proposals && after.votes == s.votes
    requires forall p :: 0 <= p < |s.proposals| ==> Decided(s, p)
    ensures forall p :: 0 <= p < |s.proposals| ==> Decided(after, p)
    ensures forall p :: ForPower(after, p) == ForPower(s, p) && TotalPower(after, p) == TotalPower(s, p)
  {
    forall p | 0 <= p < |s.proposals|
      ensures Decided(after, p)
    {
      assert Decided(s, p);
    }
  }

  lemma SnapshotAdvances(s: Registry, p: ProposalId, now: Time, table: seq<HoldingRow>)
    requires Lawful(s) && FairStep(Snapshot(p, now, table))
    ensures Advances(s, TakeSnapshot(s, p, now, table))
  {
    var snapshots := Powers(s.snapshots, p, Held(table));
    PowersEffect(s.snapshots, p, Held(table));
    HeldAreNonNegative(table);
    if p < |s.proposals| {
      MoreSnapshots(s, p, snapshots);
    }
  }

  lemma MoreSnapshots(s: Registry, p: ProposalId, snapshots: map<VoterKey, real>)
    requires Lawful(s) && p < |s.proposals|
    requires forall k :: k in s.snapshots ==> k in snapshots && snapshots[k] == s.snapshots[k]
    requires forall k :: k in snapshots && k !in s.snapshots ==> k.0 == p && snapshots[k] >= 0.0
    ensures Advances(s, s.(snapshots := snapshots))
  {
    SameVotesDecided(s, s.(snapshots := snapshots));
  }

  /** A change of one proposal's status that the tally bears out. */
  lemma StatusAdvances(s: Registry, p: ProposalId, status: ProposalStatus)
    requires Lawful(s) && p < |s.proposals| && MayBecome(s.proposals[p].status, status)
    requires status != Active ==>
               (status in {Passed, Executed} <==> Approves(ForPower(s, p), TotalPower(s, p), s.proposals[p].supply))
    ensures Advances(s, s.(proposals := s.proposals[p := s.proposals[p].(status := status)]))
  {
    var after := s.(proposals := s.proposals[p := s.proposals[p].(status := status)]);
    forall q | 0 <= q < |s.proposals|
      ensures Decided(after, q)
    {
      assert Decided(s, q);
    }
  }

  lemma ProposeAdvances(s: Registry, proposal: Proposal)
    requires Lawful(s) && proposal.status == Active
    ensures Advances(s, s.(proposals := s.proposals + [proposal]))
  {
    var after := s.(proposals := s.proposals + [proposal]);
    forall q | 0 <= q < |after.proposals|
      ensures Decided(after, q)
    {
      assert q < |s.proposals| ==> Decided(s, q);
    }
  }

  /** One step: the law is kept, statuses only move forward, a cast vote is never changed or withdrawn, and the tally
      of a proposal that is no longer active does not move. */
  lemma NextAdvances(s: Registry, step: Step)
    requires Lawful(s) && FairStep(step)
    ensures Advances(s, Next(s, step))
  {
    match step
    case Propose(proposal) => ProposeAdvances(s, proposal.(status := Active));
    case Cast(user, p, isFor, now) =>
      if CastVote(s, user, p, isFor, now).Ok? {
        CastAdvances(s, user, p, isFor, now);
      }
    case Snapshot(p, now, table) => SnapshotAdvances(s, p, now, table);
    case Finish(p, now) =>
      if Finalize(s, p, now) != s {
        StatusAdvances(s, p, Finalize(s, p, now).proposals[p].status);
      }
    case Enact(p) =>
      if Execute(s, p).Ok? {
        assert Decided(s, p);
        StatusAdvances(s, p, Executed);
      }
  }

  lemma {:induction false} HeldAreNonNegative(table: seq<HoldingRow>)
    requires forall row :: row in table ==> row.available >= 0.0 && row.locked >= 0.0
    ensures forall i :: 0 <= i < |Held(table)| ==> HeldBy(Held(table)[i]) >= 0.0
  {
    if table != [] {
      HeldAreNonNegative(table[..|table| - 1]);
    }
  }

  /** What is decided stands. */
  ghost predicate Stands(s: Registry, now: Registry) {
    && |s.proposals| <= |now.proposals|
    && (forall k :: k in s.votes ==> k in now.votes && now.votes[k] == s.votes[k])
    && (forall p :: 0 <= p < |s.proposals| && s.proposals[p].status != Active ==>
          && now.proposals[p].status != Active
          && (s.proposals[p].status == Rejected ==> now.proposals[p].status == Rejected)
          && (s.proposals[p].status in {Passed, Executed} ==> now.proposals[p].status in {Passed, Executed})
          && ForPower(now, p) == ForPower(s, p)
          && TotalPower(now, p) == TotalPower(s, p))
  }

  lemma {:induction false} StandsOnward(s: Registry, steps: seq<Step>)
    requires Lawful(s) && forall i :: 0 <= i < |steps| ==> FairStep(steps[i])
    ensures Lawful(Play(s, steps)) && Stands(s, Play(s, steps))
  {
    if steps != [] {
      var n := |steps| - 1;
      StandsOnward(s, steps[..n]);
      NextAdvances(Play(s, steps[..n]), steps[n]);
    }
  }

  function NewDao(): Registry {
    Registry([], map[], map[])
  }

  lemma NewDaoLawful()
    ensures Lawful(NewDao())
  {
  }

  lemma {:induction false} PlayInTwo(s: Registry, first: seq<Step>, more: seq<Step>)
    ensures Play(s, first + more) == Play(Play(s, first), more)
  {
    if more == [] {
      assert first + more == first;
    } else {
      var n := |more| - 1;
      PlayInTwo(s, first, more[..n]);
      assert (first + more)[..|first| + n] == first + more[..n];
    }
  }

  /** In every reachable state a decided proposal is approved exactly when it has a quorum of a fifth of the supply and
      more than 51 percent in favour, no proposal has collected more voting power than its snapshot holds, and whatever
      happens next, decisions, their tallies and all votes stay as they are. */
  lemma ApprovalsStandForever(first: seq<Step>, more: seq<Step>)
    requires forall i :: 0 <= i < |first| ==> FairStep(first[i])
    requires forall i :: 0 <= i < |more| ==> FairStep(more[i])
    ensures var s := Play(NewDao(), first);
            && (forall p :: 0 <= p < |s.proposals| ==> Decided(s, p))
            && (forall p :: ForPower(s, p) <= TotalPower(s, p) <= SumMap(s.snapshots, SnapshotPower(p)))
            && Stands(s, Play(NewDao(), first + more))
  {
    var s := Play(NewDao(), first);
    NewDaoLawful();
    StandsOnward(NewDao(), first);
    StandsOnward(s, more);
    PlayInTwo(NewDao(), first, more);
    forall p {
      VotesWithinSnapshot(s, p);
    }
  }

  function SnapshotPower(p: ProposalId): (VoterKey, real) -> real {
    (k: VoterKey, power: real) => if k.0 == p then power else 0.0
  }

  /** No proposal ever collects more voting power than its snapshot holds. */
  lemma VotesWithinSnapshot(s: Registry, p: ProposalId)
    requires Lawful(s)
    ensures ForPower(s, p) <= TotalPower(s, p) <= SumMap(s.snapshots, SnapshotPower(p))
  {
    SumMapAtMost(s.votes, PowerIn(p, true), s.votes, PowerIn(p, false));
    SumMapAtMost(s.votes, PowerIn(p, false), s.snapshots, SnapshotPower(p));
  }

  // ----- The service

  class DaoService {
    var proposals: seq<Proposal>
    var snapshots: map<VoterKey, real>
    var votes: map<VoterKey, Vote>

    ghost function Contents(): Registry
      reads this
    {
      Registry(proposals, snapshots, votes)
    }

    constructor ()
      ensures Contents() == Registry([], map[], map[])
    {
      proposals, snapshots, votes := [], map[], map[];
    }

    method VoteOn(user: UserId, p: ProposalId, isFor: bool, now: Time) returns (r: Result<(), VoteError>)
      modifies this`votes
      ensures match CastVote(old(Contents()), user, p, isFor, now)
              case Ok(after) => r.Ok? && Contents() == after
              case Err(e) => r == Err(e) && Contents() == old(Contents())
    {
      if p >= |proposals| {
        return Err(ProposalNotFound);
      }
      if proposals[p].status != Active {
        return Err(NotActive);
      }
      if now < proposals[p].snapshotDate {
        return Err(NotOpenYet);
      }
      if now > proposals[p].endDate {
        return Err(Ended);
      }
      if (p, user) !in snapshots || snapshots[(p, user)] <= 0.0 {
        return Err(NoVotingPower);
      }
      if (p, user) in votes {
        return Err(AlreadyVoted);
      }
      votes := votes[(p, user) := Vote(isFor, snapshots[(p, user)])];
      return Ok(());
    }

    /** The cursor loop of a snapshot: every holder gets a row, whatever the page size. */
    method ProcessSnapshot(p: ProposalId, now: Time, table: seq<HoldingRow>, batchSize: nat)
      requires SortedById(table) && batchSize > 0
      modifies this`snapshots
      ensures Contents() == TakeSnapshot(old(Contents()), p, now, table)
    {
      if p >= |proposals| || proposals[p].status != Active || now < proposals[p].snapshotDate {
        return;
      }
      if exists k :: k in snapshots && k.0 == p {
        return;
      }
      VisitedNone(table);
      var cursor: Option<nat> := None;
      ghost var done := [];
      while true
        invariant Visited(table, cursor, done)
        invariant snapshots == Powers(old(snapshots), p, done)
        decreases |Held(table)| - |done|
      {
        NextPage(table, cursor, done, batchSize);
        var page := Page(table, cursor, batchSize);
        if page == [] {
          break;
        }
        cursor := Some(page[|page| - 1].id);
        PowersInTwo(old(snapshots), p, done, page);
        snapshots := Powers(snapshots, p, page);
        done := done + page;
      }
    }

    /** Sums the votes, as the database does, and settles the proposal's fate. */
    method FinalizeProposal(p: ProposalId, now: Time)
      modifies this`proposals
      ensures Contents() == Finalize(old(Contents()), p, now)
    {
      if p >= |proposals| || proposals[p].status != Active || proposals[p].endDate > now {
        return;
      }
      var forPower, totalPower := SumVotes(p);
      var approved := Approves(forPower, totalPower, proposals[p].supply);
      proposals := proposals[p := proposals[p].(status := if approved then Passed else Rejected)];
    }

    method SumVotes(p: ProposalId) returns (forPower: real, totalPower: real)
      ensures forPower == ForPower(Contents(), p) && totalPower == TotalPower(Contents(), p)
    {
      forPower, totalPower := 0.0, 0.0;
      var rest := votes;
      while rest != map[]
        invariant forPower + SumMap(rest, PowerIn(p, true)) == ForPower(Contents(), p)
        invariant totalPower + SumMap(rest, PowerIn(p, false)) == TotalPower(Contents(), p)
        decreases |rest|
      {
        assert rest.Keys != {};
        var k :| k in rest;
        SumMapRemove(rest, k, PowerIn(p, true));
        SumMapRemove(rest, k, PowerIn(p, false));
        forPower := forPower + PowerIn(p, true)(k, rest[k]);
        totalPower := totalPower + PowerIn(p, false)(k, rest[k]);
        rest := rest - {k};
      }
    }

    method ExecuteProposal(p: ProposalId) returns (r: Result<(), VoteError>)
      modifies this`proposals
      ensures match Execute(old(Contents()), p)
              case Ok(after) => r.Ok? && Contents() == after
              case Err(e) => r == Err(e) && Contents() == old(Contents())
    {
      if p >= |proposals| {
        return Err(ProposalNotFound);
      }
      if proposals[p].status != Passed {
        return Err(NotPassed);
      }
      proposals := proposals[p := proposals[p].(status := Executed)];
      return Ok(());
    }
  }

  lemma {:induction false} PowersInTwo(
    snapshots: map<VoterKey, real>, p: ProposalId, first: seq<HoldingRow>, second: seq<HoldingRow>)
    ensures Powers(snapshots, p, first + second) == Powers(Powers(snapshots, p, first), p, second)
  {
    if second == [] {
      assert first + second == first;
    } else {
      var n := |second| - 1;
      PowersInTwo(snapshots, p, first, second[..n]);
      assert (first + second)[..|first| + n] == first + second[..n];
    }
  }
}

/** What voting, snapshots and finalisation promise, in numbers and stored fields. */
module DaoRules {
  import opened Balances
  import opened Snapshots
  import opened Dao

  /** A fifth of the supply has voted, and more than 51 percent of it in favour. */
  predicate Carried(forPower: real, totalPower: real, supply: real) {
    5.0 * totalPower >= supply && totalPower > 0.0 && 100.0 * forPower > 51.0 * totalPower
  }

  lemma CarriedIff(forPower: real, totalPower: real, supply: real)
    ensures Approves(forPower, totalPower, supply) <==> Carried(forPower, totalPower, supply)
  {
    if totalPower > 0.0 {
      var share := forPower / totalPower;
      assert share * totalPower == forPower;
      assert (share - 0.51) * totalPower == forPower - 0.51 * totalPower;
      if share > 0.51 {
        assert (share - 0.51) * totalPower > 0.0;
      } else {
        assert (0.51 - share) * totalPower >= 0.0;
      }
    }
  }

  /** In every reachable state a decided proposal is passed or executed exactly when it was carried. */
  lemma PassedIffCarried(steps: seq<Step>, p: ProposalId)
    requires forall i :: 0 <= i < |steps| ==> FairStep(steps[i])
    requires p < |Play(NewDao(), steps).proposals| && Play(NewDao(), steps).proposals[p].status != Active
    ensures var s := Play(NewDao(), steps);
            (s.proposals[p].status in {Passed, Executed} <==>
               && 5.0 * TotalPower(s, p) >= s.proposals[p].supply
               && TotalPower(s, p) > 0.0
               && 100.0 * ForPower(s, p) > 51.0 * TotalPower(s, p))
  {
    var s := Play(NewDao(), steps);
    NewDaoLawful();
    StandsOnward(NewDao(), steps);
    assert Decided(s, p);
    CarriedIff(ForPower(s, p), TotalPower(s, p), s.proposals[p].supply);
  }

  /** An active proposal is decided once its end date has come and not before; deciding changes its status only. */
  lemma DecidedAtTheEnd(s: Registry, p: ProposalId, now: Time)
    requires p < |s.proposals| && s.proposals[p].status == Active
    ensures var status := if now < s.proposals[p].endDate then Active
                          else if Carried(ForPower(s, p), TotalPower(s, p), s.proposals[p].supply) then Passed
                          else Rejected;
            Finalize(s, p, now) == s.(proposals := s.proposals[p := s.proposals[p].(status := status)])
  {
    CarriedIff(ForPower(s, p), TotalPower(s, p), s.proposals[p].supply);
  }

  // ----- Snapshots

  lemma {:induction false} NoPowerWithoutRow(snapshots: map<VoterKey, real>, p: ProposalId, rows: seq<HoldingRow>,
                                             user: UserId)
    requires (p, user) !in snapshots && forall i :: 0 <= i < |rows| ==> rows[i].user != user
    ensures (p, user) !in Powers(snapshots, p, rows)
  {
    if rows != [] {
      NoPowerWithoutRow(snapshots, p, rows[..|rows| - 1], user);
    }
  }

  lemma {:induction false} PowerOfRow(snapshots: map<VoterKey, real>, p: ProposalId, rows: seq<HoldingRow>, i: nat)
    requires i < |rows| && (p, rows[i].user) !in snapshots
    requires forall j :: 0 <= j < |rows| && j != i ==> rows[j].user != rows[i].user
    ensures var k: VoterKey, after := (p, rows[i].user), Powers(snapshots, p, rows);
            k in after && after[k] == rows[i].available + rows[i].locked
  {
    var n := |rows| - 1;
    if i == n {
      NoPowerWithoutRow(snapshots, p, rows[..n], rows[i].user);
    } else {
      PowerOfRow(snapshots, p, rows[..n], i);
    }
  }

  lemma PowersOfUsers(snapshots: map<VoterKey, real>, p: ProposalId, rows: seq<HoldingRow>, user: UserId)
    requires (p, user) !in snapshots
    requires forall i, j :: 0 <= i < j < |rows| ==> rows[i].user != rows[j].user
    ensures (p, user) in Powers(snapshots, p, rows) <==> exists row :: row in rows && row.user == user
    ensures forall row :: row in rows && row.user == user && (p, user) in Powers(snapshots, p, rows) ==>
                            Powers(snapshots, p, rows)[(p, user)] == row.available + row.locked
  {
    if i: nat :| i < |rows| && rows[i].user == user {
      PowerOfRow(snapshots, p, rows, i);
      assert rows[i] in rows;
    } else {
      NoPowerWithoutRow(snapshots, p, rows, user);
    }
  }

  lemma {:induction false} HeldKeepsUsersApart(table: seq<HoldingRow>)
    requires forall i, j :: 0 <= i < j < |table| ==> table[i].user != table[j].user
    ensures forall i, j :: 0 <= i < j < |Held(table)| ==> Held(table)[i].user != Held(table)[j].user
    ensures forall row :: row in Held(table) <==> row in table && (row.available > 0.0 || row.locked > 0.0)
  {
    if table != [] {
      var n := |table| - 1;
      HeldKeepsUsersApart(table[..n]);
      assert table == table[..n] + [table[n]];
      forall i | 0 <= i < |Held(table[..n])|
        ensures Held(table[..n])[i].user != table[n].user
      {
        assert Held(table[..n])[i] in table[..n];
      }
    }
  }

  /** A first snapshot, of an active proposal whose date has come, gives voting power to exactly the users who hold
      something, namely what they hold in both pockets together. */
  lemma SnapshotIsHoldings(s: Registry, p: ProposalId, now: Time, table: seq<HoldingRow>, user: UserId)
    requires p < |s.proposals| && s.proposals[p].status == Active && now >= s.proposals[p].snapshotDate
    requires forall k :: k in s.snapshots ==> k.0 != p
    requires forall i, j :: 0 <= i < j < |table| ==> table[i].user != table[j].user
    ensures (p, user) in TakeSnapshot(s, p, now, table).snapshots <==>
              exists row :: row in table && row.user == user && (row.available > 0.0 || row.locked > 0.0)
    ensures var after := TakeSnapshot(s, p, now, table);
            && (after.proposals, after.votes) == (s.proposals, s.votes)
            && forall row :: row in table && row.user == user && (p, user) in after.snapshots ==>
                 after.snapshots[(p, user)] == row.available + row.locked
  {
    HeldKeepsUsersApart(table);
    PowersOfUsers(s.snapshots, p, Held(table), user);
    forall row, other | row in table && other in table && row.user == other.user == user
      ensures row == other
    {
      var i, j :| 0 <= i < |table| && 0 <= j < |table| && table[i] == row && table[j] == other;
    }
  }

  /** Before its date, after a first snapshot, or once decided, a proposal's snapshot is left as it is. */
  lemma SnapshotOnce(s: Registry, p: ProposalId, now: Time, table: seq<HoldingRow>, k: VoterKey)
    requires p < |s.proposals|
    requires || now < s.proposals[p].snapshotDate || s.proposals[p].status != Active
             || (k.0 == p && k in s.snapshots)
    ensures TakeSnapshot(s, p, now, table) == s
  {
  }

  // ----- Votes

  /** A vote is counted exactly when its proposal is active, within its dates, its voter has power and has not voted;
      it then records the voter's power and changes nothing else. Otherwise the error names something that is so. */
  lemma VoteIsCountedIff(s: Registry, user: UserId, p: ProposalId, isFor: bool, now: Time)
    ensures CastVote(s, user, p, isFor, now).Ok? <==>
              && p < |s.proposals| && s.proposals[p].status == Active
              && s.proposals[p].snapshotDate <= now <= s.proposals[p].endDate
              && (p, user) in s.snapshots && s.snapshots[(p, user)] > 0.0
              && (p, user) !in s.votes
    ensures CastVote(s, user, p, isFor, now).Ok? ==>
              var k: VoterKey := (p, user);
              CastVote(s, user, p, isFor, now).value == s.(votes := s.votes[k := Vote(isFor, s.snapshots[k])])
    ensures CastVote(s, user, p, isFor, now).Err? ==>
              match CastVote(s, user, p, isFor, now).error
              case ProposalNotFound => p >= |s.proposals|
              case NotActive => s.proposals[p].status != Active
              case NotOpenYet => now < s.proposals[p].snapshotDate
              case Ended => s.proposals[p].endDate < now
              case NoVotingPower => (p, user) in s.snapshots ==> s.snapshots[(p, user)] <= 0.0
              case AlreadyVoted => (p, user) in s.votes
              case NotPassed => false
  {
  }

  /** A call by which a user votes within a proposal's dates. */
  predicate IsCast(step: Step, k: VoterKey, isFor: bool, proposal: Proposal) {
    && step.Cast? && step.p == k.0 && step.user == k.1 && step.isFor == isFor
    && proposal.snapshotDate <= step.now <= proposal.endDate
  }

  /** A snapshot, on or after its date, that finds a user to hold an amount. */
  ghost predicate Finds(step: Step, k: VoterKey, power: real, proposal: Proposal) {
    && step.Snapshot? && step.p == k.0 && proposal.snapshotDate <= step.now
    && exists row :: row in step.table && row.user == k.1 && row.available + row.locked == power
  }

  /** Every voting power was found by a snapshot, and every vote cast by its voter with that power. */
  ghost predicate Accounted(s: Registry, steps: seq<Step>) {
    && (forall k :: k in s.snapshots ==>
          k.0 < |s.proposals| && exists i :: 0 <= i < |steps| && Finds(steps[i], k, s.snapshots[k], s.proposals[k.0]))
    && (forall k: VoterKey :: k in s.votes ==>
          && k in s.snapshots && s.votes[k].power == s.snapshots[k] > 0.0
          && k.0 < |s.proposals|
          && exists i :: 0 <= i < |steps| && IsCast(steps[i], k, s.votes[k].isFor, s.proposals[k.0]))
  }

  /** No step changes the terms of a proposal. */
  predicate SameTerms(before: seq<Proposal>, after: seq<Proposal>) {
    && |before| <= |after|
    && forall p :: 0 <= p < |before| ==> after[p].(status := before[p].status) == before[p]
  }

  lemma NextKeepsTerms(s: Registry, step: Step)
    ensures SameTerms(s.proposals, Next(s, step).proposals)
  {
  }

  lemma SnapshotFinds(s: Registry, step: Step, k: VoterKey)
    requires step.Snapshot? && k !in s.snapshots && k in Next(s, step).snapshots
    ensures k.0 < |s.proposals| && Finds(step, k, Next(s, step).snapshots[k], s.proposals[k.0])
  {
    PowersEffect(s.snapshots, step.p, Held(step.table));
    HeldAreRows(step.table);
    var held := Held(step.table);
    var i :| 0 <= i < |held| && held[i].user == k.1 && Next(s, step).snapshots[k] == HeldBy(held[i]);
    assert held[i] in held;
  }

  lemma {:induction false} HeldAreRows(table: seq<HoldingRow>)
    ensures forall row :: row in Held(table) ==> row in table
  {
    if table != [] {
      HeldAreRows(table[..|table| - 1]);
    }
  }

  lemma SnapshotsKeep(s: Registry, step: Step, k: VoterKey)
    requires k in s.snapshots
    ensures k in Next(s, step).snapshots && Next(s, step).snapshots[k] == s.snapshots[k]
  {
    if step.Snapshot? {
      PowersEffect(s.snapshots, step.p, Held(step.table));
    }
  }

  lemma StillFound(steps: seq<Step>, step: Step, k: VoterKey, power: real, before: Proposal, after: Proposal)
    requires exists i :: 0 <= i < |steps| && Finds(steps[i], k, power, before)
    requires after.(status := before.status) == before
    ensures exists i :: 0 <= i < |steps + [step]| && Finds((steps + [step])[i], k, power, after)
  {
    var i :| 0 <= i < |steps| && Finds(steps[i], k, power, before);
    assert (steps + [step])[i] == steps[i];
    assert Finds((steps + [step])[i], k, power, after);
  }

  lemma StillCast(steps: seq<Step>, step: Step, k: VoterKey, isFor: bool, before: Proposal, after: Proposal)
    requires exists i :: 0 <= i < |steps| && IsCast(steps[i], k, isFor, before)
    requires after.(status := before.status) == before
    ensures exists i :: 0 <= i < |steps + [step]| && IsCast((steps + [step])[i], k, isFor, after)
  {
    var i :| 0 <= i < |steps| && IsCast(steps[i], k, isFor, before);
    assert (steps + [step])[i] == steps[i];
    assert IsCast((steps + [step])[i], k, isFor, after);
  }

  lemma PowerAccounted(s: Registry, steps: seq<Step>, step: Step, k: VoterKey)
    requires Accounted(s, steps) && k in Next(s, step).snapshots
    ensures var after := Next(s, step);
            && k.0 < |after.proposals|
            && exists i :: 0 <= i < |steps + [step]|
                        && Finds((steps + [step])[i], k, after.snapshots[k], after.proposals[k.0])
  {
    NextKeepsTerms(s, step);
    if k in s.snapshots {
      SnapshotsKeep(s, step, k);
      StillFound(steps, step, k, s.snapshots[k], s.proposals[k.0], Next(s, step).proposals[k.0]);
    } else {
      SnapshotFinds(s, step, k);
      assert (steps + [step])[|steps|] == step;
    }
  }

  lemma NewVoteIsCast(s: Registry, step: Step, k: VoterKey)
    requires k !in s.votes && k in Next(s, step).votes
    ensures k in s.snapshots && Next(s, step).votes[k].power == s.snapshots[k] > 0.0
    ensures k.0 < |s.proposals| && IsCast(step, k, Next(s, step).votes[k].isFor, s.proposals[k.0])
  {
  }

  lemma OldVoteStays(s: Registry, step: Step, k: VoterKey)
    requires k in s.votes
    ensures k in Next(s, step).votes && Next(s, step).votes[k] == s.votes[k]
  {
  }

  lemma VoteAccounted(s: Registry, steps: seq<Step>, step: Step, k: VoterKey)
    requires Accounted(s, steps) && k in Next(s, step).votes
    ensures var after := Next(s, step);
            && k in after.snapshots && after.votes[k].power == after.snapshots[k] > 0.0
            && k.0 < |after.proposals|
            && exists i :: 0 <= i < |steps + [step]|
                        && IsCast((steps + [step])[i], k, after.votes[k].isFor, after.proposals[k.0])
  {
    NextKeepsTerms(s, step);
    if k in s.votes {
      OldVoteStays(s, step, k);
      SnapshotsKeep(s, step, k);
      StillCast(steps, step, k, s.votes[k].isFor, s.proposals[k.0], Next(s, step).proposals[k.0]);
    } else {
      NewVoteIsCast(s, step, k);
      SnapshotsKeep(s, step, k);
      assert (steps + [step])[|steps|] == step;
    }
  }

  /** In every reachable state a vote is its voter's own call within the proposal's dates, and its power is what a
      snapshot, on or after the proposal's snapshot date, found the voter to hold in both pockets. */
  lemma {:induction false} VotesAreAccounted(steps: seq<Step>)
    ensures Accounted(Play(NewDao(), steps), steps)
  {
    if steps != [] {
      var n := |steps| - 1;
      var s, step := Play(NewDao(), steps[..n]), steps[n];
      VotesAreAccounted(steps[..n]);
      assert steps == steps[..n] + [step];
      forall k: VoterKey | k in Next(s, step).snapshots {
        PowerAccounted(s, steps[..n], step, k);
      }
      forall k: VoterKey | k in Next(s, step).votes {
        VoteAccounted(s, steps[..n], step, k);
      }
    }
  }
}
