/** What the escrow contract promises over every history of invocations. */
module EscrowTheorems {
  import opened Common
  import opened Soroban
  import opened TokenLedger
  import opened EscrowSpec
  import opened EscrowInvariant

  /** Storages some history of invocations reaches after deployment on a ledger whose tokens each
      fit an i128. */
  ghost predicate Reachable(self: Address, s: Storage) {
    exists ledger: Ledger, history: seq<Invocation> ::
      (forall t :: Supply(ledger, t) <= I128_MAX) && Run(self, Deployed(ledger), history) == s
  }

  // ---- Every invocation keeps the invariant

  /** Calls that touch configuration only. */
  lemma ConfigKeepsInv(self: Address, s: Storage, s': Storage)
    requires Inv(self, s) && ListsOk(s')
    requires s'.escrows == s.escrows && s'.votes == s.votes && s'.ledger == s.ledger
    requires s'.payouts == s.payouts && s'.lastEscrowId == s.lastEscrowId
    ensures Inv(self, s')
  {
  }

  predicate IsListCall(c: Call) {
    c.CAddToken? || c.CRemoveToken? || c.CAcceptAdmin? || c.CAddCoAdmin? || c.CRemoveCoAdmin? || c.CSetQuorumConfig?
  }

  lemma ListCallsKeepLists(s: Storage, env: Env, c: Call)
    requires ListsOk(s) && IsListCall(c) && Invoke(s, env, c).Ok?
    ensures ListsOk(Invoke(s, env, c).value)
  {
    match c
    case CRemoveToken(_, token) => RemoveFirstRemoves(s.whitelist, token);
    case CAcceptAdmin(a) => RemoveFirstRemoves(s.adminList, a);
    case CRemoveCoAdmin(_, a) => RemoveFirstRemoves(s.adminList, a);
    case CSetQuorumConfig(_, arbiters, _) => NoRepeatsIsDistinct(arbiters);
    case _ =>
  }

  lemma OtherConfigKeepsLists(s: Storage, env: Env, c: Call)
    requires ListsOk(s) && !IsMoneyCall(c) && !IsListCall(c) && Invoke(s, env, c).Ok?
    ensures ListsOk(Invoke(s, env, c).value)
  {
  }

  lemma DepositKeepsInv(self: Address, s: Storage, env: Env, buyer: Address, seller: Address,
                        token: Address, amount: int, orderId: string, timeout: nat)
    requires Inv(self, s) && env.self == self
    requires Deposit(s, env, buyer, seller, token, amount, orderId, timeout).Ok?
    ensures Inv(self, Deposit(s, env, buyer, seller, token, amount, orderId, timeout).value)
  {
    var s' := Deposit(s, env, buyer, seller, token, amount, orderId, timeout).value;
    var id := s'.lastEscrowId;
    DepositKeepsCustody(self, s, env, buyer, seller, token, amount, orderId, timeout);
    forall i | 0 <= i < |s.payouts| ensures PayoutOk(s', s'.payouts[i]) {
      PayoutStays(s, s', id, s.payouts[i]);
    }
    forall e | e in s'.escrows && !Open(s'.escrows[e])
      ensures exists i :: 0 <= i < |s'.payouts| && s'.payouts[i].escrowId == e
    {
      assert e in s.escrows && !Open(s.escrows[e]);
    }
  }

  lemma DepositKeepsCustody(self: Address, s: Storage, env: Env, buyer: Address, seller: Address,
                            token: Address, amount: int, orderId: string, timeout: nat)
    requires BookOk(self, s) && Solvent(self, s) && env.self == self
    requires Deposit(s, env, buyer, seller, token, amount, orderId, timeout).Ok?
    ensures var s' := Deposit(s, env, buyer, seller, token, amount, orderId, timeout).value;
            BookOk(self, s') && Solvent(self, s')
  {
    var s' := Deposit(s, env, buyer, seller, token, amount, orderId, timeout).value;
    var id := s'.lastEscrowId;
    TransferConserves(s.ledger, token, buyer, self, amount);
    forall t ensures Owed(s'.escrows, t, id) <= Balance(s'.ledger, t, self) {
      OwedSet(s.escrows, id, s'.escrows[id], t, s.lastEscrowId);
    }
  }

  lemma DisputeKeepsInv(self: Address, s: Storage, env: Env, id: nat, caller: Address)
    requires Inv(self, s) && Dispute(s, env, id, caller).Ok?
    ensures Inv(self, Dispute(s, env, id, caller).value)
  {
    var s' := Dispute(s, env, id, caller).value;
    forall t ensures Owed(s'.escrows, t, s'.lastEscrowId) == Owed(s.escrows, t, s.lastEscrowId) {
      OwedSet(s.escrows, id, s'.escrows[id], t, s.lastEscrowId);
    }
    forall i | 0 <= i < |s.payouts| ensures PayoutOk(s', s'.payouts[i]) {
      assert PayoutOk(s, s.payouts[i]);
    }
  }

  /** What a payout does to the ledger, and that in any sound storage it goes through. */
  lemma SettleMoves(self: Address, s: Storage, env: Env, id: nat, toSeller: bool)
    requires Inv(self, s) && env.self == self && id in s.escrows && Open(s.escrows[id])
    ensures s.fee.Some? && Settle(s, env, s.escrows[id], toSeller).Ok?
    ensures var rec, s' := s.escrows[id], Settle(s, env, s.escrows[id], toSeller).value;
            var cut := if toSeller then FeeOf(rec.amount, s.fee.value.feeBps) else 0;
            var payee := if toSeller then rec.seller else rec.buyer;
            && (forall t :: Supply(s'.ledger, t) == Supply(s.ledger, t))
            && (forall t, a :: Balance(s'.ledger, t, a) == Balance(s.ledger, t, a)
                 + (if t == rec.token && a == payee then rec.amount - cut else 0)
                 + (if t == rec.token && a == s.fee.value.treasury then cut else 0)
                 - (if t == rec.token && a == self then rec.amount else 0))
            && PayoutOk(s', s'.payouts[|s.payouts|])
            && 0 <= cut <= rec.amount / 10
  {
    var rec := s.escrows[id];
    assert s.admin.Some?;
    OwedAtLeast(s.escrows, id, s.lastEscrowId);
    assert Owed(s.escrows, rec.token, s.lastEscrowId) <= Balance(s.ledger, rec.token, self);
    assert Supply(s.ledger, rec.token) <= I128_MAX;
    TotalCoversHolder(Of(s.ledger, rec.token), self);
    SellerLegsSums(rec, s.fee.value);
    BuyerLegsSums(rec);
    FeeBounds(rec.amount, s.fee.value.feeBps);
    var legs := if toSeller then SellerLegs(rec, s.fee.value) else [(rec.buyer, rec.amount)];
    PayLegsMoves(s.ledger, rec.token, self, legs);
  }

  lemma TotalCoversHolder(h: Holdings, a: Address)
    ensures Held(h, a) <= Total(h)
  {
    if a in h { TotalWithout(h, a); }
  }

  lemma SettleKeepsInv(self: Address, s: Storage, env: Env, id: nat, toSeller: bool)
    requires Inv(self, s) && env.self == self && id in s.escrows && Open(s.escrows[id])
    ensures Settle(s, env, s.escrows[id], toSeller).Ok?
    ensures Inv(self, Settle(s, env, s.escrows[id], toSeller).value)
  {
    SettleKeepsCustody(self, s, env, id, toSeller);
    SettleKeepsPayouts(self, s, env, id, toSeller);
  }

  lemma SettleKeepsCustody(self: Address, s: Storage, env: Env, id: nat, toSeller: bool)
    requires Inv(self, s) && env.self == self && id in s.escrows && Open(s.escrows[id])
    ensures Settle(s, env, s.escrows[id], toSeller).Ok?
    ensures var s' := Settle(s, env, s.escrows[id], toSeller).value; BookOk(self, s') && Solvent(self, s')
  {
    SettleMoves(self, s, env, id, toSeller);
    var s' := Settle(s, env, s.escrows[id], toSeller).value;
    forall t ensures Owed(s'.escrows, t, s'.lastEscrowId) <= Balance(s'.ledger, t, self) {
      OwedSet(s.escrows, id, s'.escrows[id], t, s.lastEscrowId);
    }
  }

  lemma SettleKeepsPayouts(self: Address, s: Storage, env: Env, id: nat, toSeller: bool)
    requires Inv(self, s) && env.self == self && id in s.escrows && Open(s.escrows[id])
    requires Settle(s, env, s.escrows[id], toSeller).Ok?
    ensures PayoutsOk(Settle(s, env, s.escrows[id], toSeller).value)
  {
    SettleMoves(self, s, env, id, toSeller);
    OnePayoutMore(s, Settle(s, env, s.escrows[id], toSeller).value, id);
  }

  /** Closing an open escrow with one sound payout keeps payouts and closed escrows matched. */
  lemma OnePayoutMore(s: Storage, s': Storage, id: nat)
    requires PayoutsOk(s) && id in s.escrows && Open(s.escrows[id])
    requires id in s'.escrows && !Open(s'.escrows[id]) && s'.escrows == s.escrows[id := s'.escrows[id]]
    requires |s'.payouts| == |s.payouts| + 1 && forall i :: 0 <= i < |s.payouts| ==> s'.payouts[i] == s.payouts[i]
    requires PayoutOk(s', s'.payouts[|s.payouts|]) && s'.payouts[|s.payouts|].escrowId == id
    ensures PayoutsOk(s')
  {
    forall i | 0 <= i < |s'.payouts|
      ensures PayoutOk(s', s'.payouts[i]) && (i < |s.payouts| ==> s'.payouts[i].escrowId != id)
    {
      if i < |s.payouts| { PayoutStays(s, s', id, s.payouts[i]); }
    }
    forall i, j | 0 <= i < j < |s'.payouts| ensures s'.payouts[i].escrowId != s'.payouts[j].escrowId {
      if j < |s.payouts| { assert s.payouts[i].escrowId != s.payouts[j].escrowId; }
    }
    ClosedHavePayouts(s, s', id);
  }

  /** A payout is of a closed escrow, so it stays sound when an open one changes. */
  lemma PayoutStays(s: Storage, s': Storage, id: nat, p: Payout)
    requires PayoutOk(s, p) && (id in s.escrows ==> Open(s.escrows[id]))
    requires forall e :: e in s.escrows && e != id ==> e in s'.escrows && s'.escrows[e] == s.escrows[e]
    ensures PayoutOk(s', p) && p.escrowId != id
  {
  }

  lemma ClosedHavePayouts(s: Storage, s': Storage, id: nat)
    requires PayoutsOk(s) && id in s'.escrows && s'.escrows.Keys == s.escrows.Keys
    requires forall e :: e in s.escrows && e != id ==> s'.escrows[e] == s.escrows[e]
    requires |s'.payouts| == |s.payouts| + 1 && forall i :: 0 <= i < |s.payouts| ==> s'.payouts[i] == s.payouts[i]
    requires s'.payouts[|s.payouts|].escrowId == id
    ensures forall e :: e in s'.escrows && !Open(s'.escrows[e]) ==>
              exists i :: 0 <= i < |s'.payouts| && s'.payouts[i].escrowId == e
  {
    forall e | e in s'.escrows && !Open(s'.escrows[e]) && e != id
      ensures exists i :: 0 <= i < |s'.payouts| && s'.payouts[i].escrowId == e
    {
      var i :| 0 <= i < |s.payouts| && s.payouts[i].escrowId == e;
      assert s'.payouts[i].escrowId == e;
    }
  }

  lemma VoteKeepsInv(self: Address, s: Storage, env: Env, id: nat, arbiter: Address, toSeller: bool)
    requires Inv(self, s) && VoteDispute(s, env, id, arbiter, toSeller).Ok?
    ensures Inv(self, VoteDispute(s, env, id, arbiter, toSeller).value)
  {
    var s' := VoteDispute(s, env, id, arbiter, toSeller).value;
    OneVoteMore(s, s', id, DisputeVote(arbiter, toSeller));
    forall i | 0 <= i < |s.payouts| ensures PayoutOk(s', s.payouts[i]) {
      assert PayoutOk(s, s.payouts[i]);
    }
  }

  lemma OneVoteMore(s: Storage, s': Storage, id: nat, vote: DisputeVote)
    requires VotesOk(s) && id in s.escrows && s.escrows[id].status != Funded && !HasVoted(VotesOf(s, id), vote.arbiter)
    requires s' == s.(votes := s.votes[id := VotesOf(s, id) + [vote]])
    ensures VotesOk(s')
  {
    assert forall i :: 0 <= i < |VotesOf(s, id)| ==> VotesOf(s, id)[i].arbiter != vote.arbiter;
  }

  predicate IsMoneyCall(c: Call) {
    c.CDeposit? || c.CRelease? || c.CRefund? || c.CResolveDispute? || c.CResolveDisputeQuorum?
    || c.CDispute? || c.CVoteDispute? || c.CTransfer?
  }

  lemma MoneyCallKeepsInv(self: Address, s: Storage, env: Env, c: Call)
    requires Inv(self, s) && env.self == self && IsMoneyCall(c) && Invoke(s, env, c).Ok?
    ensures Inv(self, Invoke(s, env, c).value)
  {
    if IsSettlingCall(c) {
      var toSeller := SettlingCall(s, env, c);
      SettleKeepsInv(self, s, env, c.id, toSeller);
    } else if c.CDeposit? {
      DepositKeepsInv(self, s, env, c.caller, c.seller, c.token, c.amount, c.orderId, c.timeoutLedgers);
    } else if c.CDispute? {
      DisputeKeepsInv(self, s, env, c.id, c.caller);
    } else if c.CVoteDispute? {
      VoteKeepsInv(self, s, env, c.id, c.caller, c.toSeller);
    } else {
      TransferConserves(s.ledger, c.token, c.caller, c.to, c.amount);
      OutsideTransferKeepsInv(self, s, Invoke(s, env, c).value.ledger);
    }
  }

  lemma ConfigCallKeepsInv(self: Address, s: Storage, env: Env, c: Call)
    requires Inv(self, s) && !IsMoneyCall(c) && Invoke(s, env, c).Ok?
    ensures Inv(self, Invoke(s, env, c).value)
  {
    if IsListCall(c) { ListCallsKeepLists(s, env, c); } else { OtherConfigKeepsLists(s, env, c); }
    ConfigCall(s, env, c);
    ConfigKeepsInv(self, s, Invoke(s, env, c).value);
  }

  lemma InvokeKeepsInv(self: Address, s: Storage, env: Env, c: Call)
    requires Inv(self, s) && env.self == self && Invoke(s, env, c).Ok?
    ensures Inv(self, Invoke(s, env, c).value)
  {
    if IsMoneyCall(c) { MoneyCallKeepsInv(self, s, env, c); } else { ConfigCallKeepsInv(self, s, env, c); }
  }

  lemma OutsideTransferKeepsInv(self: Address, s: Storage, ledger: Ledger)
    requires Inv(self, s)
    requires forall t ::
        Supply(ledger, t) == Supply(s.ledger, t) && Balance(ledger, t, self) >= Balance(s.ledger, t, self)
    ensures Inv(self, s.(ledger := ledger))
  {
    var s' := s.(ledger := ledger);
    forall i | 0 <= i < |s.payouts| ensures PayoutOk(s', s'.payouts[i]) {
      assert PayoutOk(s, s.payouts[i]);
    }
  }

  lemma {:induction false} RunKeepsInv(self: Address, s: Storage, history: seq<Invocation>)
    requires Inv(self, s)
    ensures Inv(self, Run(self, s, history))
    decreases |history|
  {
    if history != [] {
      var inv := history[0];
      var env := Env(self, inv.sequence, inv.timestamp);
      if Invoke(s, env, inv.call).Ok? { InvokeKeepsInv(self, s, env, inv.call); }
      RunKeepsInv(self, Next(self, s, inv), history[1..]);
    }
  }

  lemma ReachableInv(self: Address, s: Storage)
    requires Reachable(self, s)
    ensures Inv(self, s)
  {
    var ledger: Ledger, history: seq<Invocation> :|
      (forall t :: Supply(ledger, t) <= I128_MAX) && Run(self, Deployed(ledger), history) == s;
    RunKeepsInv(self, Deployed(ledger), history);
  }

  lemma {:induction false} RunAppend(self: Address, s: Storage, a: seq<Invocation>, b: seq<Invocation>)
    ensures Run(self, s, a + b) == Run(self, Run(self, s, a), b)
    decreases |a|
  {
    if a == [] {
      assert a + b == b;
    } else {
      assert (a + b)[1..] == a[1..] + b;
      RunAppend(self, Next(self, s, a[0]), a[1..], b);
    }
  }

  lemma RunOneMore(self: Address, s: Storage, history: seq<Invocation>, inv: Invocation)
    ensures Run(self, s, history + [inv]) == Next(self, Run(self, s, history), inv)
  {
    RunAppend(self, s, history, [inv]);
    var mid := Run(self, s, history);
    assert [inv][1..] == [] && Run(self, Next(self, mid, inv), []) == Next(self, mid, inv);
  }

  // ---- What each kind of call can touch

  predicate IsSettlingCall(c: Call) {
    c.CRelease? || c.CRefund? || c.CResolveDispute? || c.CResolveDisputeQuorum?
  }

  /** The four calls that close an escrow all do it by one payout of an open escrow. */
  lemma SettlingCall(s: Storage, env: Env, c: Call) returns (toSeller: bool)
    requires IsSettlingCall(c) && Invoke(s, env, c).Ok?
    ensures c.id in s.escrows && Open(s.escrows[c.id])
    ensures Invoke(s, env, c) == Settle(s, env, s.escrows[c.id], toSeller)
    ensures (c.CRelease? ==> toSeller) && (c.CRefund? ==> !toSeller) && (c.CResolveDispute? ==> toSeller == c.toSeller)
  {
    match c
    case CRelease(_, _) => toSeller := true;
    case CRefund(_, _) => toSeller := false;
    case CResolveDispute(_, _, t) => toSeller := t;
    case CResolveDisputeQuorum(id, _) =>
      toSeller := CountVotes(VotesOf(s, id), s.quorum.value.arbiters, true) >= s.quorum.value.threshold;
  }

  /** A configuration call leaves escrows, votes, payouts and balances alone, and only initialize
      names a treasury. */
  lemma ConfigCall(s: Storage, env: Env, c: Call)
    requires !IsMoneyCall(c) && Invoke(s, env, c).Ok?
    ensures var s' := Invoke(s, env, c).value;
            && s'.escrows == s.escrows && s'.votes == s.votes && s'.ledger == s.ledger && s'.payouts == s.payouts
            && (c.CInitialize? ==> s'.fee.Some? && s'.fee.value.treasury == c.treasury && s.admin.None?)
            && (!c.CInitialize? ==> s'.lastEscrowId == s.lastEscrowId && s'.fee.Some? == s.fee.Some?)
            && (!c.CInitialize? && s.fee.Some? ==> s'.fee.value.treasury == s.fee.value.treasury)
  {
  }

  // ---- Custody

  /** In every reachable storage the contract holds, of every token, at least what it owes on open
      escrows. */
  lemma CustodyHolds(self: Address, s: Storage, token: Address)
    requires Reachable(self, s)
    ensures BookOk(self, s) && Owed(s.escrows, token, s.lastEscrowId) <= Balance(s.ledger, token, self)
  {
    ReachableInv(self, s);
  }

  /** No history of invocations creates or destroys a token. */
  lemma {:induction false} SupplyIsConserved(self: Address, s: Storage, history: seq<Invocation>, token: Address)
    requires Inv(self, s)
    ensures Supply(Run(self, s, history).ledger, token) == Supply(s.ledger, token)
    decreases |history|
  {
    if history != [] {
      var inv := history[0];
      var env := Env(self, inv.sequence, inv.timestamp);
      if Invoke(s, env, inv.call).Ok? {
        InvokeKeepsInv(self, s, env, inv.call);
        InvokeConserves(self, s, env, inv.call, token);
      }
      SupplyIsConserved(self, Next(self, s, inv), history[1..], token);
    }
  }

  lemma InvokeConserves(self: Address, s: Storage, env: Env, c: Call, token: Address)
    requires Inv(self, s) && env.self == self && Invoke(s, env, c).Ok?
    ensures Supply(Invoke(s, env, c).value.ledger, token) == Supply(s.ledger, token)
  {
    if IsSettlingCall(c) {
      var toSeller := SettlingCall(s, env, c);
      SettleMoves(self, s, env, c.id, toSeller);
    } else if c.CDeposit? {
      TransferConserves(s.ledger, c.token, c.caller, self, c.amount);
    } else if c.CTransfer? {
      TransferConserves(s.ledger, c.token, c.caller, c.to, c.amount);
    } else if !IsMoneyCall(c) {
      ConfigCall(s, env, c);
    }
  }

  /** No party or treasury of the call is the contract itself, and nobody sends it tokens directly. */
  predicate AtArmsLength(self: Address, c: Call) {
    match c
    case CInitialize(_, _, treasury, _, _) => treasury != self
    case CDeposit(_, seller, _, _, _, _) => seller != self
    case CTransfer(_, _, to, _) => to != self
    case _ => true
  }

  ghost predicate HoldsExactly(self: Address, s: Storage)
    requires BookOk(self, s)
  {
    && (forall t :: Balance(s.ledger, t, self) == Owed(s.escrows, t, s.lastEscrowId))
    && (forall id :: id in s.escrows ==> s.escrows[id].seller != self)
    && (s.fee.Some? ==> s.fee.value.treasury != self)
  }

  /** At arm's length the contract holds exactly what it owes, at all times. */
  lemma {:induction false} CustodyIsExact(self: Address, s: Storage, history: seq<Invocation>)
    requires Inv(self, s) && HoldsExactly(self, s)
    requires forall i :: 0 <= i < |history| ==> AtArmsLength(self, history[i].call)
    ensures BookOk(self, Run(self, s, history)) && HoldsExactly(self, Run(self, s, history))
    decreases |history|
  {
    RunKeepsInv(self, s, history);
    if history != [] {
      var inv := history[0];
      var env := Env(self, inv.sequence, inv.timestamp);
      if Invoke(s, env, inv.call).Ok? {
        InvokeKeepsInv(self, s, env, inv.call);
        InvokeKeepsExact(self, s, env, inv.call);
      }
      CustodyIsExact(self, Next(self, s, inv), history[1..]);
    }
  }

  /** The same from deployment on, for a contract that starts without tokens. */
  lemma CustodyIsExactFromDeployment(self: Address, ledger: Ledger, history: seq<Invocation>, token: Address)
    requires forall t :: Supply(ledger, t) <= I128_MAX && Balance(ledger, t, self) == 0
    requires forall i :: 0 <= i < |history| ==> AtArmsLength(self, history[i].call)
    ensures var s := Run(self, Deployed(ledger), history);
            BookOk(self, s) && Balance(s.ledger, token, self) == Owed(s.escrows, token, s.lastEscrowId)
  {
    assert forall t :: Owed(Deployed(ledger).escrows, t, 0) == 0;
    CustodyIsExact(self, Deployed(ledger), history);
  }

  lemma SettleKeepsExact(self: Address, s: Storage, env: Env, id: nat, toSeller: bool)
    requires Inv(self, s) && HoldsExactly(self, s) && env.self == self && id in s.escrows && Open(s.escrows[id])
    ensures Settle(s, env, s.escrows[id], toSeller).Ok?
    ensures var s' := Settle(s, env, s.escrows[id], toSeller).value; BookOk(self, s') && HoldsExactly(self, s')
  {
    SettleMoves(self, s, env, id, toSeller);
    var s' := Settle(s, env, s.escrows[id], toSeller).value;
    forall t ensures Balance(s'.ledger, t, self) == Owed(s'.escrows, t, s'.lastEscrowId) {
      OwedSet(s.escrows, id, s'.escrows[id], t, s.lastEscrowId);
    }
  }

  lemma DepositKeepsExact(self: Address, s: Storage, env: Env, c: Call)
    requires Inv(self, s) && HoldsExactly(self, s) && env.self == self && AtArmsLength(self, c)
    requires c.CDeposit? && Invoke(s, env, c).Ok? && BookOk(self, Invoke(s, env, c).value)
    ensures HoldsExactly(self, Invoke(s, env, c).value)
  {
    var s' := Invoke(s, env, c).value;
    TransferConserves(s.ledger, c.token, c.caller, self, c.amount);
    forall t ensures Balance(s'.ledger, t, self) == Owed(s'.escrows, t, s'.lastEscrowId) {
      OwedSet(s.escrows, s'.lastEscrowId, s'.escrows[s'.lastEscrowId], t, s.lastEscrowId);
    }
  }

  lemma InvokeKeepsExact(self: Address, s: Storage, env: Env, c: Call)
    requires Inv(self, s) && HoldsExactly(self, s) && env.self == self && AtArmsLength(self, c) && Invoke(s, env, c).Ok?
    requires BookOk(self, Invoke(s, env, c).value)
    ensures HoldsExactly(self, Invoke(s, env, c).value)
  {
    var s' := Invoke(s, env, c).value;
    if IsSettlingCall(c) {
      var toSeller := SettlingCall(s, env, c);
      SettleKeepsExact(self, s, env, c.id, toSeller);
    } else if c.CDeposit? {
      DepositKeepsExact(self, s, env, c);
    } else if c.CTransfer? {
      TransferConserves(s.ledger, c.token, c.caller, c.to, c.amount);
    } else if c.CDispute? {
      forall t ensures Owed(s'.escrows, t, s'.lastEscrowId) == Owed(s.escrows, t, s.lastEscrowId) {
        OwedSet(s.escrows, c.id, s'.escrows[c.id], t, s.lastEscrowId);
      }
    } else if !IsMoneyCall(c) {
      ConfigCall(s, env, c);
    }
  }

  /** Exactly when a deposit is taken, and what it leaves behind: a new Funded escrow under the next id
      on the given terms, the amount moved from buyer to contract, and nothing else. */
  lemma DepositExactlyWhen(self: Address, s: Storage, env: Env, buyer: Address, seller: Address,
                           token: Address, amount: int, orderId: string, timeout: nat)
    requires Reachable(self, s) && env.self == self && buyer != self
    ensures var r := Deposit(s, env, buyer, seller, token, amount, orderId, timeout);
            && (r.Ok? <==>
                  && !s.createPaused && token in s.whitelist
                  && s.limits.Some? && s.limits.value.minAmount <= amount <= s.limits.value.maxAmount
                  && amount <= Balance(s.ledger, token, buyer)
                  && s.lastEscrowId < U64_MAX && env.sequence + timeout <= U32_MAX)
            && (r.Ok? ==>
                  var s', id := r.value, s.lastEscrowId + 1;
                  && id !in s.escrows && s'.escrows.Keys == s.escrows.Keys + {id}
                  && (forall e :: e in s.escrows ==> s'.escrows[e] == s.escrows[e])
                  && s'.escrows[id] == EscrowRecord(id, buyer, seller, token, amount, Funded, orderId,
                                                    env.timestamp, env.sequence + timeout)
                  && VotesOf(s', id) == []
                  && (forall t, a :: Balance(s'.ledger, t, a) == Balance(s.ledger, t, a)
                        + (if t == token && a == self then amount else 0)
                        - (if t == token && a == buyer then amount else 0)))
  {
    ReachableInv(self, s);
    if 0 <= amount <= Balance(s.ledger, token, buyer) {
      CoveredTransferSucceeds(s.ledger, token, buyer, self, amount);
      TransferConserves(s.ledger, token, buyer, self, amount);
    }
  }

  // ---- Payouts

  /** Who may close an escrow, exactly. No reachable storage makes one of these calls fail for lack
      of funds, a missing fee configuration or an overflow. */
  lemma ClosesExactlyWhen(self: Address, s: Storage, env: Env, id: nat, caller: Address, toSeller: bool)
    requires Reachable(self, s) && env.self == self && caller != self
    ensures Release(s, env, id, caller).Ok? <==>
              id in s.escrows && s.escrows[id].status == Funded && (caller == s.escrows[id].buyer || IsAdmin(s, caller))
    ensures Refund(s, env, id, caller).Ok? <==>
              && id in s.escrows && s.escrows[id].status == Funded
              && (caller == s.escrows[id].seller || IsAdmin(s, caller)
                  || (caller == s.escrows[id].buyer && env.sequence >= s.escrows[id].timeoutLedger))
    ensures ResolveDispute(s, env, id, caller, toSeller).Ok? <==>
              id in s.escrows && s.escrows[id].status == Disputed && IsAdmin(s, caller)
    ensures Release(s, env, id, caller) != Err(Trap) && Refund(s, env, id, caller) != Err(Trap)
    ensures ResolveDispute(s, env, id, caller, toSeller) != Err(Trap)
    ensures ResolveDisputeQuorum(s, env, id, caller) != Err(Trap)
  {
    ReachableInv(self, s);
    if id in s.escrows && Open(s.escrows[id]) {
      SettleMoves(self, s, env, id, true);
      SettleMoves(self, s, env, id, false);
    }
  }

  /** Exactly when an escrow goes into dispute: it is Funded and its buyer or its seller says so. Nothing but
      that one status changes. */
  lemma DisputeExactlyWhen(self: Address, s: Storage, env: Env, id: nat, caller: Address)
    requires Reachable(self, s) && env.self == self && caller != self
    ensures var r := Dispute(s, env, id, caller);
            && (r.Ok? <==>
                  && id in s.escrows && s.escrows[id].status == Funded
                  && (caller == s.escrows[id].buyer || caller == s.escrows[id].seller))
            && (r.Ok? ==>
                  && r.value.escrows.Keys == s.escrows.Keys
                  && (forall e :: e in s.escrows && e != id ==> r.value.escrows[e] == s.escrows[e])
                  && r.value.escrows[id].status == Disputed
                  && r.value.escrows[id] == s.escrows[id].(status := r.value.escrows[id].status)
                  && r.value == s.(escrows := r.value.escrows))
  {
  }

  /** Exactly when a vote is taken: on an escrow in dispute, from a current arbiter who has none there yet. It
      is added to that escrow's votes and nothing else changes. */
  lemma VoteExactlyWhen(self: Address, s: Storage, env: Env, id: nat, arbiter: Address, toSeller: bool)
    requires Reachable(self, s) && env.self == self && arbiter != self
    ensures var r := VoteDispute(s, env, id, arbiter, toSeller);
            && (r.Ok? <==>
                  && id in s.escrows && s.escrows[id].status == Disputed
                  && s.quorum.Some? && arbiter in s.quorum.value.arbiters
                  && forall v :: v in VotesOf(s, id) ==> v.arbiter != arbiter)
            && (r.Ok? ==>
                  && VotesOf(r.value, id) == VotesOf(s, id) + [DisputeVote(arbiter, toSeller)]
                  && (forall e :: e != id ==> VotesOf(r.value, e) == VotesOf(s, e))
                  && r.value == s.(votes := r.value.votes))
  {
  }

  /** What a successful release, refund or admin resolution moves: the deposit leaves the contract,
      the fee goes to the treasury, the rest to the payee, and no other balance changes. */
  lemma PayoutMoves(self: Address, s: Storage, env: Env, c: Call)
    requires Reachable(self, s) && env.self == self && IsSettlingCall(c) && Invoke(s, env, c).Ok?
    ensures c.id in s.escrows && c.id in Invoke(s, env, c).value.escrows && s.fee.Some?
    ensures var s' := Invoke(s, env, c).value;
            var rec := s.escrows[c.id];
            var toSeller := s'.escrows[c.id].status == Released;
            var cut := if toSeller then (rec.amount * s.fee.value.feeBps) / 10_000 else 0;
            && (toSeller || s'.escrows[c.id].status == Refunded)
            && (c.CRelease? ==> toSeller) && (c.CRefund? ==> !toSeller)
            && (c.CResolveDispute? ==> toSeller == c.toSeller)
            && 0 <= cut <= rec.amount / 10
            && forall t, a :: Balance(s'.ledger, t, a) == Balance(s.ledger, t, a)
                 + (if t == rec.token && a == (if toSeller then rec.seller else rec.buyer) then rec.amount - cut else 0)
                 + (if t == rec.token && a == s.fee.value.treasury then cut else 0)
                 - (if t == rec.token && a == self then rec.amount else 0)
  {
    ReachableInv(self, s);
    var toSeller := SettlingCall(s, env, c);
    SettleMoves(self, s, env, c.id, toSeller);
    FeeIsExact(s.escrows[c.id].amount, s.fee.value.feeBps);
  }

  /** In every reachable storage the configured rate gives the exact floor of the product, between
      nothing and a tenth of the amount, with every intermediate inside an i128. */
  lemma ReachableFeeIsSafe(self: Address, s: Storage, amount: nat)
    requires Reachable(self, s) && s.fee.Some? && amount <= I128_MAX
    ensures var bps := s.fee.value.feeBps;
            && FeeOf(amount, bps) == (amount * bps) / 10_000
            && 0 <= FeeOf(amount, bps) <= amount / 10
            && FitsI128((amount / 10_000) * bps) && FitsI128((amount % 10_000) * bps)
            && FitsI128(FeeOf(amount, bps)) && FitsI128(amount - FeeOf(amount, bps))
  {
    ReachableInv(self, s);
    FeeIsExact(amount, s.fee.value.feeBps);
    FeeBounds(amount, s.fee.value.feeBps);
  }

  function PayoutsFor(payouts: seq<Payout>, id: nat): nat {
    if payouts == [] then 0 else (if payouts[0].escrowId == id then 1 else 0) + PayoutsFor(payouts[1..], id)
  }

  lemma {:induction false} CountPayouts(payouts: seq<Payout>, id: nat)
    requires forall i, j :: 0 <= i < j < |payouts| ==> payouts[i].escrowId != payouts[j].escrowId
    ensures PayoutsFor(payouts, id) == if exists i :: 0 <= i < |payouts| && payouts[i].escrowId == id then 1 else 0
  {
    if payouts != [] {
      var rest := payouts[1..];
      assert forall i :: 0 <= i < |rest| ==> rest[i] == payouts[i + 1];
      CountPayouts(rest, id);
      if i :| 0 <= i < |payouts| && payouts[i].escrowId == id {
        if i > 0 { assert rest[i - 1].escrowId == id; }
      }
    }
  }

  /** Over any history an escrow is paid out exactly once if it is closed and never if it is open,
      and every payout adds up to exactly the deposit. */
  lemma PaidExactlyOnce(self: Address, s: Storage, id: nat)
    requires Reachable(self, s) && id in s.escrows
    ensures PayoutsFor(s.payouts, id) == if Open(s.escrows[id]) then 0 else 1
    ensures forall i :: 0 <= i < |s.payouts| && s.payouts[i].escrowId == id ==>
              LegsTotal(s.payouts[i].legs) == s.escrows[id].amount
  {
    ReachableInv(self, s);
    CountPayouts(s.payouts, id);
    forall i | 0 <= i < |s.payouts| && s.payouts[i].escrowId == id
      ensures !Open(s.escrows[id]) && LegsTotal(s.payouts[i].legs) == s.escrows[id].amount
    {
      assert PayoutOk(s, s.payouts[i]);
    }
  }

  /** What may become of a status: Released and Refunded are final. */
  predicate MayBecome(from: EscrowStatus, to: EscrowStatus) {
    from == to || from == Funded || (from == Disputed && to != Funded)
  }

  ghost predicate Advances(s: Storage, s': Storage) {
    && (forall id :: id in s.escrows ==>
          && id in s'.escrows
          && s'.escrows[id] == s.escrows[id].(status := s'.escrows[id].status)
          && MayBecome(s.escrows[id].status, s'.escrows[id].status))
    && s.payouts <= s'.payouts
  }

  lemma SettledStatus(s: Storage, env: Env, id: nat, toSeller: bool)
    requires id in s.escrows && s.escrows[id].escrowId == id && Settle(s, env, s.escrows[id], toSeller).Ok?
    ensures var s' := Settle(s, env, s.escrows[id], toSeller).value;
            s'.escrows == s.escrows[id := s.escrows[id].(status := if toSeller then Released else Refunded)]
    ensures var s' := Settle(s, env, s.escrows[id], toSeller).value;
            && s'.lastEscrowId == s.lastEscrowId && s'.tokenEnabled == s.tokenEnabled && s'.admin == s.admin
  {
  }

  lemma SettleAdvances(s: Storage, env: Env, id: nat, toSeller: bool)
    requires id in s.escrows && s.escrows[id].escrowId == id && Open(s.escrows[id])
    requires Settle(s, env, s.escrows[id], toSeller).Ok?
    ensures Advances(s, Settle(s, env, s.escrows[id], toSeller).value)
  {
  }

  lemma OpeningAdvances(s: Storage, env: Env, c: Call)
    requires BookOk(env.self, s) && (c.CDeposit? || c.CDispute?) && Invoke(s, env, c).Ok?
    ensures Advances(s, Invoke(s, env, c).value)
  {
  }

  lemma InvokeAdvances(self: Address, s: Storage, env: Env, c: Call)
    requires BookOk(self, s) && env.self == self && Invoke(s, env, c).Ok?
    ensures Advances(s, Invoke(s, env, c).value)
  {
    if IsSettlingCall(c) {
      var toSeller := SettlingCall(s, env, c);
      SettleAdvances(s, env, c.id, toSeller);
    } else if c.CDeposit? || c.CDispute? {
      OpeningAdvances(s, env, c);
    } else if !IsMoneyCall(c) {
      ConfigCall(s, env, c);
    }
  }

  /** Over any history no term of an escrow changes but its status, a closed escrow stays closed the
      same way, and the record of payouts only grows. */
  lemma {:induction false} EscrowsOnlyAdvance(self: Address, s: Storage, history: seq<Invocation>)
    requires Inv(self, s)
    ensures Advances(s, Run(self, s, history))
    decreases |history|
  {
    if history != [] {
      var inv := history[0];
      var env := Env(self, inv.sequence, inv.timestamp);
      var s' := Next(self, s, inv);
      if Invoke(s, env, inv.call).Ok? {
        InvokeKeepsInv(self, s, env, inv.call);
        InvokeAdvances(self, s, env, inv.call);
      }
      EscrowsOnlyAdvance(self, s', history[1..]);
    }
  }

  // ---- Arbitration

  /** Current arbiters who voted for one side. */
  ghost function Voters(votes: seq<DisputeVote>, arbiters: seq<Address>, toSeller: bool): set<Address> {
    set v | v in votes && v.releaseToSeller == toSeller && v.arbiter in arbiters :: v.arbiter
  }

  ghost predicate OneVoteEach(votes: seq<DisputeVote>) {
    forall i, j :: 0 <= i < j < |votes| ==> votes[i].arbiter != votes[j].arbiter
  }

  /** The count the contract makes is the number of distinct current arbiters on that side. */
  lemma {:induction false} CountIsVoters(votes: seq<DisputeVote>, arbiters: seq<Address>, toSeller: bool)
    requires OneVoteEach(votes)
    ensures CountVotes(votes, arbiters, toSeller) == |Voters(votes, arbiters, toSeller)|
  {
    if votes != [] {
      FirstVoter(votes, arbiters, toSeller);
      CountIsVoters(votes[1..], arbiters, toSeller);
    }
  }

  lemma FirstVoter(votes: seq<DisputeVote>, arbiters: seq<Address>, toSeller: bool)
    requires votes != [] && OneVoteEach(votes)
    ensures OneVoteEach(votes[1..]) && votes[0].arbiter !in Voters(votes[1..], arbiters, toSeller)
    ensures Voters(votes, arbiters, toSeller) == Voters(votes[1..], arbiters, toSeller)
              + if votes[0].releaseToSeller == toSeller && votes[0].arbiter in arbiters then {votes[0].arbiter} else {}
  {
    var v, rest := votes[0], votes[1..];
    assert forall i :: 0 <= i < |rest| ==> rest[i] == votes[i + 1];
    assert votes == [v] + rest;
  }

  ghost function Members(list: seq<Address>): set<Address> { set a | a in list }

  lemma {:induction false} MembersAtMost(list: seq<Address>)
    ensures |Members(list)| <= |list|
  {
    if list != [] {
      MembersAtMost(list[1..]);
      assert Members(list) == Members(list[1..]) + {list[0]};
    }
  }

  lemma SidesShareArbiters(votes: seq<DisputeVote>, arbiters: seq<Address>)
    requires OneVoteEach(votes)
    ensures CountVotes(votes, arbiters, true) + CountVotes(votes, arbiters, false) <= |arbiters|
  {
    CountIsVoters(votes, arbiters, true);
    CountIsVoters(votes, arbiters, false);
    MembersAtMost(arbiters);
    var forSeller, forBuyer := Voters(votes, arbiters, true), Voters(votes, arbiters, false);
    assert forSeller !! forBuyer;
    assert |forSeller + forBuyer| == |forSeller| + |forBuyer|;
    SubsetSize(forSeller + forBuyer, Members(arbiters));
  }

  /** How a dispute resolves by quorum: to the seller exactly when enough distinct current arbiters
      voted that way and too few the other way, and likewise to the buyer. */
  lemma QuorumDecides(self: Address, s: Storage, env: Env, id: nat, caller: Address)
    requires Reachable(self, s) && env.self == self && caller != self
    requires id in s.escrows && s.escrows[id].status == Disputed && s.quorum.Some?
    ensures var q := s.quorum.value;
            var forSeller := |Voters(VotesOf(s, id), q.arbiters, true)|;
            var forBuyer := |Voters(VotesOf(s, id), q.arbiters, false)|;
            var r := ResolveDisputeQuorum(s, env, id, caller);
            && (r.Ok? ==> id in r.value.escrows)
            && ((r.Ok? && r.value.escrows[id].status == Released) <==> forSeller >= q.threshold > forBuyer)
            && ((r.Ok? && r.value.escrows[id].status == Refunded) <==> forBuyer >= q.threshold > forSeller)
            && (r == Err(ConflictingQuorum) <==> forSeller >= q.threshold && forBuyer >= q.threshold)
            && (r == Err(QuorumNotReached) <==> forSeller < q.threshold && forBuyer < q.threshold)
  {
    ReachableInv(self, s);
    CountIsVoters(VotesOf(s, id), s.quorum.value.arbiters, true);
    CountIsVoters(VotesOf(s, id), s.quorum.value.arbiters, false);
    SettleMoves(self, s, env, id, true);
    SettleMoves(self, s, env, id, false);
  }

  /** With a threshold above half of the arbiters the two sides can never both reach it, whatever
      the arbiters were when the votes were cast. */
  lemma MajorityNeverConflicts(self: Address, s: Storage, env: Env, id: nat, caller: Address)
    requires Reachable(self, s) && s.quorum.Some?
    requires 2 * s.quorum.value.threshold > |s.quorum.value.arbiters|
    ensures ResolveDisputeQuorum(s, env, id, caller) != Err(ConflictingQuorum)
  {
    ReachableInv(self, s);
    SidesShareArbiters(VotesOf(s, id), s.quorum.value.arbiters);
  }

  lemma PrefixVoters(arbiters: seq<Address>, votes: seq<DisputeVote>, lo: nat, hi: nat, toSeller: bool)
    requires Distinct(arbiters) && lo <= hi <= |votes| <= |arbiters|
    requires forall i :: 0 <= i < |votes| ==> votes[i].arbiter == arbiters[i]
    requires forall i :: lo <= i < hi ==> votes[i].releaseToSeller == toSeller
    ensures |Voters(votes, arbiters, toSeller)| >= hi - lo
  {
    var some := set i | lo <= i < hi :: arbiters[i];
    RangeSize(arbiters, lo, hi);
    forall a | a in some ensures a in Voters(votes, arbiters, toSeller) {
      var i :| lo <= i < hi && arbiters[i] == a;
      assert votes[i] in votes;
    }
    SubsetSize(some, Voters(votes, arbiters, toSeller));
  }

  lemma {:induction false} RangeSize(list: seq<Address>, lo: nat, hi: nat)
    requires Distinct(list) && lo <= hi <= |list|
    ensures |set i | lo <= i < hi :: list[i]| == hi - lo
    decreases hi
  {
    if lo < hi {
      RangeSize(list, lo, hi - 1);
      RangeGrows(list, lo, hi - 1);
    }
  }

  lemma RangeGrows(list: seq<Address>, lo: nat, hi: nat)
    requires Distinct(list) && lo <= hi < |list|
    ensures (set i | lo <= i < hi + 1 :: list[i]) == (set i | lo <= i < hi :: list[i]) + {list[hi]}
    ensures list[hi] !in (set i | lo <= i < hi :: list[i])
  {
  }

  /** One call adds at most one vote, cast by an arbiter of that moment on an escrow in dispute. */
  lemma InvokeVotes(s: Storage, env: Env, c: Call, id: nat)
    requires Invoke(s, env, c).Ok? && VotesOf(Invoke(s, env, c).value, id) != VotesOf(s, id)
    ensures id in s.escrows && s.escrows[id].status == Disputed && s.quorum.Some?
    ensures c.CVoteDispute? && c.id == id && c.caller in s.quorum.value.arbiters
    ensures VotesOf(Invoke(s, env, c).value, id) == VotesOf(s, id) + [DisputeVote(c.caller, c.toSeller)]
  {
    if IsSettlingCall(c) {
      var toSeller := SettlingCall(s, env, c);
    } else if !IsMoneyCall(c) {
      ConfigCall(s, env, c);
    }
  }

  /** Every stored vote on an escrow is from a different arbiter, there is none before a dispute, and
      votes change only while the escrow is in dispute, by one vote of an arbiter of that moment. */
  lemma VotesBelongToDisputes(self: Address, s: Storage, inv: Invocation, id: nat)
    requires Reachable(self, s)
    ensures OneVoteEach(VotesOf(s, id))
    ensures VotesOf(s, id) != [] ==> id in s.escrows && s.escrows[id].status != Funded
    ensures var now, later, c := VotesOf(s, id), VotesOf(Next(self, s, inv), id), inv.call;
            later == now ||
              (&& id in s.escrows && s.escrows[id].status == Disputed && s.quorum.Some?
               && c.CVoteDispute? && c.caller in s.quorum.value.arbiters
               && later == now + [DisputeVote(c.caller, c.toSeller)])
  {
    ReachableInv(self, s);
    var env := Env(self, inv.sequence, inv.timestamp);
    if Invoke(s, env, inv.call).Ok? && VotesOf(Invoke(s, env, inv.call).value, id) != VotesOf(s, id) {
      InvokeVotes(s, env, inv.call, id);
    }
  }

  // ---- Lists and authority

  /** The administrator and token lists in every reachable storage. */
  lemma ListsAreKept(self: Address, s: Storage)
    requires Reachable(self, s)
    ensures Distinct(s.adminList) && (s.admin.Some? ==> s.admin.value !in s.adminList)
    ensures Distinct(s.whitelist) && forall t :: t in s.whitelist <==> IsTokenAllowed(s, t)
  {
    ReachableInv(self, s);
  }

  /** Removal ends a co-admin's authority and handover moves the primary admin's; nobody else gains
      or loses any. */
  lemma AuthorityMoves(self: Address, s: Storage, env: Env, caller: Address, coAdmin: Address)
    requires Reachable(self, s)
    ensures RemoveCoAdmin(s, env, caller, coAdmin).Ok? ==>
              forall a :: IsAdmin(RemoveCoAdmin(s, env, caller, coAdmin).value, a) <==> IsAdmin(s, a) && a != coAdmin
    ensures AcceptAdmin(s, env, caller).Ok? ==>
              && s.admin.Some?
              && forall a :: IsAdmin(AcceptAdmin(s, env, caller).value, a) <==>
                   a == caller || (IsAdmin(s, a) && a != s.admin.value)
  {
    ReachableInv(self, s);
    RemoveFirstRemoves(s.adminList, coAdmin);
    RemoveFirstRemoves(s.adminList, caller);
  }

  // ---- The read-only views

  /** get_refund_eligibility says yes exactly when refund would succeed. */
  lemma RefundViewIsExact(self: Address, s: Storage, env: Env, id: nat, caller: Address)
    requires Reachable(self, s) && env.self == self && caller != self
    ensures RefundEligibility(s, env, id, caller).eligible <==> Refund(s, env, id, caller).Ok?
  {
    ClosesExactlyWhen(self, s, env, id, caller, false);
  }

  /** get_release_eligibility is stricter than release: for a caller entitled to release, release
      succeeds exactly when the view says yes or gives the timeout as its only objection. */
  lemma ReleaseViewIsStricter(self: Address, s: Storage, env: Env, id: nat, caller: Address)
    requires Reachable(self, s) && env.self == self && caller != self
    requires id in s.escrows && (caller == s.escrows[id].buyer || IsAdmin(s, caller))
    ensures Release(s, env, id, caller).Ok? <==>
              ReleaseEligibility(s, env, id).eligible || ReleaseEligibility(s, env, id).reason == "timeout"
  {
    ClosesExactlyWhen(self, s, env, id, caller, true);
  }
}
