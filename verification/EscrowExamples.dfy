/** Histories on which the contract does less, or more, than its views and names suggest. */
module EscrowExamples {
  import opened Common
  import opened Soroban
  import opened TokenLedger
  import opened EscrowSpec
  import opened EscrowInvariant
  import opened EscrowTheorems
  import opened EscrowAuthority

  /** What can be reached stays so one call later. */
  lemma ReachesNext(self: Address, s: Storage, inv: Invocation)
    requires Reachable(self, s)
    ensures Reachable(self, Next(self, s, inv))
  {
    var ledger: Ledger, history: seq<Invocation> :|
      (forall t :: Supply(ledger, t) <= I128_MAX) && Run(self, Deployed(ledger), history) == s;
    RunOneMore(self, Deployed(ledger), history, inv);
  }

  /** Who takes part. */
  datatype Cast = Cast(self: Address, admin: Address, treasury: Address, buyer: Address, seller: Address,
      token: Address) {
    predicate Valid() { self != admin && self != buyer && self != seller }
  }

  /** A deployment that accepts one token, all of it with the buyer. */
  lemma Opened(p: Cast, feeBps: nat, amount: nat) returns (s: Storage)
    requires p.Valid() && feeBps <= 1000 && 1 <= amount <= I128_MAX
    ensures Reachable(p.self, s) && s.admin == Some(p.admin) && s.adminList == [] && s.pendingAdmin.None?
    ensures s.fee == Some(FeeConfig(feeBps, p.treasury)) && s.limits == Some(AmountLimits(1, I128_MAX))
    ensures IsTokenAllowed(s, p.token) && !s.createPaused && s.votes == map[] && s.escrows == map[]
        && s.lastEscrowId == 0
    ensures s.ledger == map[p.token := map[p.buyer := amount]]
  {
    var ledger: Ledger := map[p.token := map[p.buyer := amount]];
    var s0 := Deployed(ledger);
    OneHolder(ledger, p.token, p.buyer, amount);
    assert Run(p.self, s0, []) == s0;
    var init := Invocation(0, 0, CInitialize(p.admin, feeBps, p.treasury, 1, I128_MAX));
    var s1 := Next(p.self, s0, init);
    ReachesNext(p.self, s0, init);
    var add := Invocation(0, 0, CAddToken(p.admin, p.token));
    s := Next(p.self, s1, add);
    ReachesNext(p.self, s1, add);
  }

  /** And one deposit that may be taken back at once. */
  lemma Deposited(p: Cast, feeBps: nat, amount: nat) returns (s: Storage)
    requires p.Valid() && feeBps <= 1000 && 1 <= amount <= I128_MAX
    ensures Reachable(p.self, s) && s.admin == Some(p.admin) && s.adminList == [] && s.pendingAdmin.None?
    ensures s.fee == Some(FeeConfig(feeBps, p.treasury)) && s.votes == map[]
    ensures s.escrows == map[1 := EscrowRecord(1, p.buyer, p.seller, p.token, amount, Funded, "", 0, 0)]
  {
    var s2 := Opened(p, feeBps, amount);
    var deposit := Invocation(0, 0, CDeposit(p.buyer, p.seller, p.token, amount, "", 0));
    s := Next(p.self, s2, deposit);
    ReachesNext(p.self, s2, deposit);
    assert Balance(s2.ledger, p.token, p.buyer) == amount && Balance(s2.ledger, p.token, p.self) == 0;
  }

  lemma OneHolder(ledger: Ledger, token: Address, holder: Address, amount: nat)
    requires ledger == map[token := map[holder := amount]] && amount <= I128_MAX
    ensures forall t :: Supply(ledger, t) <= I128_MAX
  {
    var h: Holdings := map[holder := amount];
    TotalWithout(h, holder);
    assert h - {holder} == map[];
    forall t ensures Supply(ledger, t) <= I128_MAX {
      assert Of(ledger, t) == if t == token then h else map[];
    }
  }

  /** release goes through for a buyer although the view objects that the timeout has passed. */
  lemma ReleaseAfterTimeout(p: Cast, env: Env) returns (s: Storage)
    requires p.Valid() && env.self == p.self
    ensures Reachable(p.self, s) && 1 in s.escrows && env.sequence >= s.escrows[1].timeoutLedger
    ensures ReleaseEligibility(s, env, 1) == Eligibility(false, "timeout")
    ensures Release(s, env, 1, p.buyer).Ok?
  {
    s := Deposited(p, 0, 1);
    ReleaseViewIsStricter(p.self, s, env, 1, p.buyer);
  }

  /** The largest deposit at the highest rate: the direct product leaves i128, and release pays the exact fee
      all the same. */
  lemma DirectProductWouldOverflow(p: Cast, env: Env) returns (s: Storage)
    requires p.Valid() && env.self == p.self && p.treasury != p.self && p.treasury != p.seller
    ensures Reachable(p.self, s) && 1 in s.escrows && s.fee.Some?
    ensures s.escrows[1].amount * s.fee.value.feeBps > I128_MAX
    ensures var r := Release(s, env, 1, p.buyer);
            r.Ok? && Balance(r.value.ledger, p.token, p.treasury)
                       == Balance(s.ledger, p.token, p.treasury) + (s.escrows[1].amount * s.fee.value.feeBps) / 10_000
  {
    s := Deposited(p, 1000, I128_MAX);
    ClosesExactlyWhen(p.self, s, env, 1, p.buyer, true);
    PayoutMoves(p.self, s, env, CRelease(1, p.buyer));
  }

  /** A co-admin that is proposed and then removed makes itself the primary admin; the old one is left with
      nothing, and no administrator acts in between. */
  lemma RemovedNomineeTakesOver(self: Address, admin: Address, x: Address, treasury: Address)
      returns (s: Storage, end: Storage)
    requires self != admin && self != x && admin != x
    ensures Reachable(self, s) && s.pendingAdmin == Some(x) && IsAdmin(s, admin) && !IsAdmin(s, x)
    ensures end == Next(self, s, Invocation(0, 0, CAcceptAdmin(x)))
    ensures end.admin == Some(x) && !IsAdmin(end, admin)
  {
    var s2 := Appointed(self, admin, x, treasury);
    var propose := Invocation(0, 0, CProposeAdmin(admin, x));
    var s3 := Next(self, s2, propose);
    ReachesNext(self, s2, propose);
    var remove := Invocation(0, 0, CRemoveCoAdmin(admin, x));
    s := Next(self, s3, remove);
    ReachesNext(self, s3, remove);
    assert [x][1..] == [];
    end := Next(self, s, Invocation(0, 0, CAcceptAdmin(x)));
  }

  /** A deployment with one co-admin. */
  lemma Appointed(self: Address, admin: Address, x: Address, treasury: Address) returns (s: Storage)
    requires self != admin && admin != x
    ensures Reachable(self, s) && s.admin == Some(admin) && s.adminList == [x] && s.pendingAdmin.None?
  {
    var s0 := Deployed(map[]);
    assert Run(self, s0, []) == s0 && forall t :: Supply(map[], t) <= I128_MAX;
    var init := Invocation(0, 0, CInitialize(admin, 0, treasury, 1, 1));
    var s1 := Next(self, s0, init);
    ReachesNext(self, s0, init);
    var add := Invocation(0, 0, CAddCoAdmin(admin, x));
    s := Next(self, s1, add);
    ReachesNext(self, s1, add);
  }

  // ---- Conflicting votes

  /** The arbiters' votes: the first half for the seller, the second for the buyer. */
  function SplitVotes(arbiters: seq<Address>, threshold: nat, n: nat): (votes: seq<DisputeVote>)
    requires n <= |arbiters|
    ensures |votes| == n && forall i :: 0 <= i < n ==> votes[i] == DisputeVote(arbiters[i], i < threshold)
  {
    seq(n, i requires 0 <= i < n => DisputeVote(arbiters[i], i < threshold))
  }

  /** n arbiters cast them, one call each. */
  lemma {:induction false} CastVotes(self: Address, s: Storage, id: nat, n: nat) returns (history: seq<Invocation>)
    requires s.quorum.Some? && Distinct(s.quorum.value.arbiters) && self !in s.quorum.value.arbiters
    requires n <= |s.quorum.value.arbiters| && id in s.escrows && s.escrows[id].status == Disputed
        && VotesOf(s, id) == []
    ensures var end, q := Run(self, s, history), s.quorum.value;
            && VotesOf(end, id) == SplitVotes(q.arbiters, q.threshold, n)
            && end.quorum == s.quorum && end.escrows == s.escrows
  {
    var q := s.quorum.value;
    if n == 0 {
      history := [];
    } else {
      var fewer := CastVotes(self, s, id, n - 1);
      var mid := Run(self, s, fewer);
      var vote := Invocation(0, 0, CVoteDispute(id, q.arbiters[n - 1], n - 1 < q.threshold));
      assert !HasVoted(VotesOf(mid, id), q.arbiters[n - 1]);
      history := fewer + [vote];
      RunOneMore(self, s, fewer, vote);
      assert VotesOf(Next(self, mid, vote), id) == SplitVotes(q.arbiters, q.threshold, n);
    }
  }

  /** With a threshold of at most half of the arbiters every dispute that nobody has voted on yet can end in a
      conflict: the arbiters vote, half each way, and resolving fails. */
  lemma MinorityMayConflict(self: Address, s: Storage, id: nat, env: Env, caller: Address)
      returns (history: seq<Invocation>)
    requires Reachable(self, s) && env.self == self && caller != self && s.quorum.Some?
        && self !in s.quorum.value.arbiters
    requires 2 * s.quorum.value.threshold <= |s.quorum.value.arbiters|
    requires id in s.escrows && s.escrows[id].status == Disputed && VotesOf(s, id) == []
    ensures ResolveDisputeQuorum(Run(self, s, history), env, id, caller) == Err(ConflictingQuorum)
  {
    ReachableInv(self, s);
    var q := s.quorum.value;
    history := CastVotes(self, s, id, 2 * q.threshold);
    var votes := SplitVotes(q.arbiters, q.threshold, 2 * q.threshold);
    SplitVotesConflict(q.arbiters, q.threshold);
  }

  lemma SplitVotesConflict(arbiters: seq<Address>, threshold: nat)
    requires Distinct(arbiters) && 2 * threshold <= |arbiters|
    ensures var votes := SplitVotes(arbiters, threshold, 2 * threshold);
            CountVotes(votes, arbiters, true) >= threshold && CountVotes(votes, arbiters, false) >= threshold
  {
    var votes := SplitVotes(arbiters, threshold, 2 * threshold);
    CountIsVoters(votes, arbiters, true);
    CountIsVoters(votes, arbiters, false);
    PrefixVoters(arbiters, votes, 0, threshold, true);
    PrefixVoters(arbiters, votes, threshold, 2 * threshold, false);
  }

  /** Such a dispute exists: two arbiters, a threshold of one. */
  lemma DisputeToConflict(p: Cast, a: Address, b: Address) returns (s: Storage)
    requires p.Valid() && a != b && a != p.self && b != p.self
    ensures Reachable(p.self, s) && s.quorum == Some(QuorumConfig([a, b], 1))
    ensures 1 in s.escrows && s.escrows[1].status == Disputed && VotesOf(s, 1) == []
  {
    var s1 := Deposited(p, 0, 1);
    var quorum := Invocation(0, 0, CSetQuorumConfig(p.admin, [a, b], 1));
    var s2 := Next(p.self, s1, quorum);
    ReachesNext(p.self, s1, quorum);
    assert NoRepeats([a, b]) by { assert [a, b][1..] == [b] && [b][1..] == []; }
    assert s2.quorum == Some(QuorumConfig([a, b], 1)) && s2.escrows == s1.escrows && s2.votes == s1.votes;
    var dispute := Invocation(0, 0, CDispute(1, p.buyer));
    s := Next(p.self, s2, dispute);
    ReachesNext(p.self, s2, dispute);
  }
}
