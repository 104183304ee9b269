/** The escrow contract as the stateful object it is: every entry point reads storage, checks, pays
    and writes back, and is proved to do exactly what its specification function says, including
    that an error or a trap leaves every field as it was. */
module EscrowContract {
  import opened Common
  import opened Soroban
  import opened TokenLedger
  import opened EscrowSpec
  import opened EscrowInvariant

  function FirstIndexOf(list: seq<Address>, a: Address): (index: Option<nat>)
    ensures index.None? <==> a !in list
    ensures index.Some? ==> index.value < |list| && list[index.value] == a
    ensures index.Some? ==> RemoveFirst(list, a) == list[..index.value] + list[index.value + 1..]
  {
    if list == [] then None
    else if list[0] == a then Some(0)
    else match FirstIndexOf(list[1..], a)
      case None => None
      case Some(i) =>
        assert list[..i + 1] + list[i + 2..] == [list[0]] + (list[1..][..i] + list[1..][i + 1..]);
        Some(i + 1)
  }

  lemma {:induction false} RemoveFirstAbsent(list: seq<Address>, a: Address)
    requires a !in list
    ensures RemoveFirst(list, a) == list
  {
    if list != [] { RemoveFirstAbsent(list[1..], a); }
  }

  lemma {:induction false} CountVotesLast(votes: seq<DisputeVote>, v: DisputeVote, arbiters: seq<Address>,
      toSeller: bool)
    ensures CountVotes(votes + [v], arbiters, toSeller) ==
              CountVotes(votes, arbiters, toSeller) + 
                (if v.releaseToSeller == toSeller && v.arbiter in arbiters then 1 else 0)
  {
    if votes == [] {
      assert votes + [v] == [v] && [v][1..] == [];
    } else {
      assert (votes + [v])[1..] == votes[1..] + [v];
      CountVotesLast(votes[1..], v, arbiters, toSeller);
    }
  }

  class EscrowContract {
    var admin: Option<Address>
    var pendingAdmin: Option<Address>
    var adminList: seq<Address>
    var fee: Option<FeeConfig>
    var limits: Option<AmountLimits>
    var quorum: Option<QuorumConfig>
    var whitelist: seq<Address>
    var tokenEnabled: map<Address, bool>
    var createPaused: bool
    var lastEscrowId: nat
    var escrows: map<nat, EscrowRecord>
    var votes: map<nat, seq<DisputeVote>>
    /** The token contracts' balances, and the payouts made so far. */
    var ledger: Ledger
    var payouts: seq<Payout>

    constructor (ledger: Ledger)
      ensures View() == Deployed(ledger)
    {
      admin, pendingAdmin, adminList, fee, limits, quorum := None, None, [], None, None, None;
      whitelist, tokenEnabled, createPaused, lastEscrowId, escrows, votes := [], map[], false, 0, map[], map[];
      this.ledger, payouts := ledger, [];
    }

    function View(): Storage
      reads this
    {
      Storage(admin, pendingAdmin, adminList, fee, limits, quorum, whitelist, tokenEnabled, createPaused,
              lastEscrowId, escrows, votes, ledger, payouts)
    }

    /** The call came back with `res` and took the storage from `before` to the present one, just as
        the specification's `outcome` says. */
    ghost predicate Did(res: Result<bool, EscrowError>, before: Storage, outcome: Outcome)
      reads this
    {
      match outcome
      case Ok(after) => res == Ok(true) && View() == after
      case Err(e) => res == Err(e) && View() == before
    }

    method Initialize(admin: Address, feeBps: nat, treasury: Address, minAmount: int, maxAmount: int)
      returns (res: Result<bool, EscrowError>)
      modifies this
      ensures Did(res, old(View()), EscrowSpec.Initialize(old(View()), admin, feeBps, treasury, minAmount, maxAmount))
    {
      if this.admin.Some? { return Err(AlreadyInitialized); }
      if feeBps > 1000 { return Err(InvalidFeeBps); }
      if minAmount <= 0 || maxAmount < minAmount { return Err(InvalidLimits); }
      this.admin := Some(admin);
      lastEscrowId := 0;
      fee := Some(FeeConfig(feeBps, treasury));
      limits := Some(AmountLimits(minAmount, maxAmount));
      return Ok(true);
    }

    method SetLimits(env: Env, admin: Address, minAmount: int, maxAmount: int) returns (res: Result<bool, EscrowError>)
      modifies this
      ensures Did(res, old(View()), EscrowSpec.SetLimits(old(View()), env, admin, minAmount, maxAmount))
    {
      if !CanAuth(env, admin) { return Err(Trap); }
      if !IsAdmin(View(), admin) { return Err(Unauthorized); }
      if minAmount <= 0 || maxAmount < minAmount { return Err(InvalidLimits); }
      limits := Some(AmountLimits(minAmount, maxAmount));
      return Ok(true);
    }

    method SetQuorumConfig(env: Env, admin: Address, arbiters: seq<Address>, threshold: nat)
      returns (res: Result<bool, EscrowError>)
      modifies this
      ensures Did(res, old(View()), EscrowSpec.SetQuorumConfig(old(View()), env, admin, arbiters, threshold))
    {
      if !CanAuth(env, admin) { return Err(Trap); }
      if !IsAdmin(View(), admin) { return Err(Unauthorized); }
      if threshold == 0 || threshold > |arbiters| { return Err(InvalidQuorum); }
      NoRepeatsIsDistinct(arbiters);
      var unique := [];
      for i := 0 to |arbiters|
        invariant unique == arbiters[..i] && Distinct(unique)
        invariant View() == old(View())
      {
        if arbiters[i] in unique {
          assert exists j :: 0 <= j < i && arbiters[j] == arbiters[i];
          return Err(InvalidQuorum);
        }
        unique := unique + [arbiters[i]];
      }
      assert unique == arbiters;
      quorum := Some(QuorumConfig(unique, threshold));
      return Ok(true);
    }

    method UpdateFee(env: Env, admin: Address, newFeeBps: nat) returns (res: Result<bool, EscrowError>)
      modifies this
      ensures Did(res, old(View()), EscrowSpec.UpdateFee(old(View()), env, admin, newFeeBps))
    {
      if !CanAuth(env, admin) { return Err(Trap); }
      if !IsAdmin(View(), admin) { return Err(Unauthorized); }
      if newFeeBps > 1000 { return Err(InvalidFeeBps); }
      if fee.None? { return Err(Trap); }
      fee := Some(fee.value.(feeBps := newFeeBps));
      return Ok(true);
    }

    method AddToken(env: Env, admin: Address, token: Address) returns (res: Result<bool, EscrowError>)
      modifies this
      ensures Did(res, old(View()), EscrowSpec.AddToken(old(View()), env, admin, token))
    {
      if !CanAuth(env, admin) { return Err(Trap); }
      if !IsAdmin(View(), admin) { return Err(Unauthorized); }
      if IsTokenAllowed(View(), token) { return Ok(true); }
      whitelist := whitelist + [token];
      tokenEnabled := tokenEnabled[token := true];
      return Ok(true);
    }

    method RemoveToken(env: Env, admin: Address, token: Address) returns (res: Result<bool, EscrowError>)
      modifies this
      ensures Did(res, old(View()), EscrowSpec.RemoveToken(old(View()), env, admin, token))
    {
      if !CanAuth(env, admin) { return Err(Trap); }
      if !IsAdmin(View(), admin) { return Err(Unauthorized); }
      var index := FirstIndexOf(whitelist, token);
      if index.Some? {
        whitelist := whitelist[..index.value] + whitelist[index.value + 1..];
      } else {
        RemoveFirstAbsent(whitelist, token);
      }
      tokenEnabled := tokenEnabled[token := false];
      return Ok(true);
    }

    method SetCreatePaused(env: Env, admin: Address, paused: bool) returns (res: Result<bool, EscrowError>)
      modifies this
      ensures Did(res, old(View()), EscrowSpec.SetCreatePaused(old(View()), env, admin, paused))
    {
      if !CanAuth(env, admin) { return Err(Trap); }
      if !IsAdmin(View(), admin) { return Err(Unauthorized); }
      createPaused := paused;
      return Ok(true);
    }

    method ProposeAdmin(env: Env, currentAdmin: Address, newAdmin: Address) returns (res: Result<bool, EscrowError>)
      modifies this
      ensures Did(res, old(View()), EscrowSpec.ProposeAdmin(old(View()), env, currentAdmin, newAdmin))
    {
      if !CanAuth(env, currentAdmin) { return Err(Trap); }
      if admin.None? { return Err(NotFound); }
      if currentAdmin != admin.value { return Err(Unauthorized); }
      pendingAdmin := Some(newAdmin);
      return Ok(true);
    }

    method AcceptAdmin(env: Env, newAdmin: Address) returns (res: Result<bool, EscrowError>)
      modifies this
      ensures Did(res, old(View()), EscrowSpec.AcceptAdmin(old(View()), env, newAdmin))
    {
      if !CanAuth(env, newAdmin) { return Err(Trap); }
      if pendingAdmin.None? { return Err(NoPendingTransfer); }
      if newAdmin != pendingAdmin.value { return Err(InvalidPendingAdmin); }
      var index := FirstIndexOf(adminList, newAdmin);
      if index.Some? {
        adminList := adminList[..index.value] + adminList[index.value + 1..];
      } else {
        RemoveFirstAbsent(adminList, newAdmin);
      }
      admin := Some(newAdmin);
      pendingAdmin := None;
      return Ok(true);
    }

    method CancelAdminTransfer(env: Env, currentAdmin: Address) returns (res: Result<bool, EscrowError>)
      modifies this
      ensures Did(res, old(View()), EscrowSpec.CancelAdminTransfer(old(View()), env, currentAdmin))
    {
      if !CanAuth(env, currentAdmin) { return Err(Trap); }
      if admin.None? { return Err(NotFound); }
      if currentAdmin != admin.value { return Err(Unauthorized); }
      if pendingAdmin.None? { return Err(NoPendingTransfer); }
      pendingAdmin := None;
      return Ok(true);
    }

    method AddCoAdmin(env: Env, primary: Address, newCoAdmin: Address) returns (res: Result<bool, EscrowError>)
      modifies this
      ensures Did(res, old(View()), EscrowSpec.AddCoAdmin(old(View()), env, primary, newCoAdmin))
    {
      if !CanAuth(env, primary) { return Err(Trap); }
      if admin.None? { return Err(NotFound); }
      if primary != admin.value { return Err(Unauthorized); }
      if newCoAdmin == admin.value { return Err(AdminAlreadyExists); }
      if newCoAdmin in adminList { return Err(AdminAlreadyExists); }
      adminList := adminList + [newCoAdmin];
      return Ok(true);
    }

    method RemoveCoAdmin(env: Env, primary: Address, coAdmin: Address) returns (res: Result<bool, EscrowError>)
      modifies this
      ensures Did(res, old(View()), EscrowSpec.RemoveCoAdmin(old(View()), env, primary, coAdmin))
    {
      if !CanAuth(env, primary) { return Err(Trap); }
      if admin.None? { return Err(NotFound); }
      if primary != admin.value { return Err(Unauthorized); }
      var index := FirstIndexOf(adminList, coAdmin);
      if index.None? { return Err(NotFound); }
      adminList := adminList[..index.value] + adminList[index.value + 1..];
      return Ok(true);
    }

    /** Returns the new escrow's id, which is the one after the last. */
    method Deposit(env: Env, buyer: Address, seller: Address, token: Address, amount: int, orderId: string,
                   timeoutLedgers: nat) returns (res: Result<nat, EscrowError>)
      modifies this
      ensures match EscrowSpec.Deposit(old(View()), env, buyer, seller, token, amount, orderId, timeoutLedgers)
              case Ok(after) => res == Ok(after.lastEscrowId) && View() == after
              case Err(e) => res == Err(e) && View() == old(View())
    {
      if !CanAuth(env, buyer) { return Err(Trap); }
      if createPaused { return Err(CreationPaused); }
      if !IsTokenAllowed(View(), token) { return Err(TokenNotWhitelisted); }
      if amount <= 0 { return Err(InvalidAmount); }
      if limits.None? { return Err(Trap); }
      if amount < limits.value.minAmount { return Err(AmountBelowMin); }
      if amount > limits.value.maxAmount { return Err(AmountAboveMax); }
      var paid := Transfer(ledger, token, buyer, env.self, amount);
      if paid.None? { return Err(Trap); }
      if lastEscrowId == U64_MAX { return Err(Trap); }
      var lastId := lastEscrowId + 1;
      if env.sequence + timeoutLedgers > U32_MAX { return Err(Trap); }
      var timeoutLedger := env.sequence + timeoutLedgers;
      ledger := paid.value;
      lastEscrowId := lastId;
      escrows := escrows[lastId := EscrowRecord(lastId, buyer, seller, token, amount, Funded, orderId,
                                                env.timestamp, timeoutLedger)];
      return Ok(lastId);
    }

    /** Pay the seller less the fee and close; all or nothing. */
    method PaySeller(env: Env, rec: EscrowRecord) returns (res: Result<bool, EscrowError>)
      modifies this
      ensures Did(res, old(View()), Settle(old(View()), env, rec, true))
    {
      if fee.None? { return Err(Trap); }
      var bps := fee.value.feeBps;
      var cut := (rec.amount / 10_000) * bps + ((rec.amount % 10_000) * bps) / 10_000;
      var sellerAmount := rec.amount - cut;
      var tokens := ledger;
      ghost var legs := SellerLegs(rec, fee.value);
      ghost var rest := [(rec.seller, sellerAmount)];
      assert rest[1..] == [];
      if cut > 0 {
        assert legs[1..] == rest;
        var toTreasury := Transfer(tokens, rec.token, env.self, fee.value.treasury, cut);
        if toTreasury.None? { return Err(Trap); }
        tokens := toTreasury.value;
      } else {
        assert legs == rest;
      }
      assert PayLegs(ledger, rec.token, env.self, legs) == PayLegs(tokens, rec.token, env.self, rest);
      var toSeller := Transfer(tokens, rec.token, env.self, rec.seller, sellerAmount);
      if toSeller.None? { return Err(Trap); }
      assert PayLegs(toSeller.value, rec.token, env.self, rest[1..]) == Some(toSeller.value);
      ledger := toSeller.value;
      escrows := escrows[rec.escrowId := rec.(status := Released)];
      payouts := payouts + [Payout(rec.escrowId, true,
        (if cut > 0 then [(fee.value.treasury, cut)] else []) + [(rec.seller, sellerAmount)])];
      return Ok(true);
    }

    /** Pay the whole deposit back to the buyer and close. */
    method PayBuyer(env: Env, rec: EscrowRecord) returns (res: Result<bool, EscrowError>)
      modifies this
      ensures Did(res, old(View()), Settle(old(View()), env, rec, false))
    {
      var back := Transfer(ledger, rec.token, env.self, rec.buyer, rec.amount);
      ghost var legs := [(rec.buyer, rec.amount)];
      assert legs[1..] == [];
      if back.None? { return Err(Trap); }
      assert PayLegs(back.value, rec.token, env.self, legs[1..]) == Some(back.value);
      ledger := back.value;
      escrows := escrows[rec.escrowId := rec.(status := Refunded)];
      payouts := payouts + [Payout(rec.escrowId, false, [(rec.buyer, rec.amount)])];
      return Ok(true);
    }

    method Release(env: Env, id: nat, caller: Address) returns (res: Result<bool, EscrowError>)
      modifies this
      ensures Did(res, old(View()), EscrowSpec.Release(old(View()), env, id, caller))
    {
      if !CanAuth(env, caller) { return Err(Trap); }
      if id !in escrows { return Err(NotFound); }
      var rec := escrows[id];
      if caller != rec.buyer && !IsAdmin(View(), caller) { return Err(Unauthorized); }
      if rec.status == Released { return Err(AlreadyReleased); }
      if rec.status != Funded { return Err(InvalidStatus); }
      res := PaySeller(env, rec);
    }

    method Refund(env: Env, id: nat, caller: Address) returns (res: Result<bool, EscrowError>)
      modifies this
      ensures Did(res, old(View()), EscrowSpec.Refund(old(View()), env, id, caller))
    {
      if !CanAuth(env, caller) { return Err(Trap); }
      if id !in escrows { return Err(NotFound); }
      var rec := escrows[id];
      if rec.status == Refunded { return Err(AlreadyRefunded); }
      if rec.status != Funded { return Err(InvalidStatus); }
      var timeoutReached := env.sequence >= rec.timeoutLedger;
      if caller == rec.seller || IsAdmin(View(), caller) {
      } else if caller == rec.buyer {
        if !timeoutReached { return Err(TimeoutNotReached); }
      } else {
        return Err(Unauthorized);
      }
      res := PayBuyer(env, rec);
    }

    method Dispute(env: Env, id: nat, caller: Address) returns (res: Result<bool, EscrowError>)
      modifies this
      ensures Did(res, old(View()), EscrowSpec.Dispute(old(View()), env, id, caller))
    {
      if !CanAuth(env, caller) { return Err(Trap); }
      if id !in escrows { return Err(NotFound); }
      var rec := escrows[id];
      if caller != rec.buyer && caller != rec.seller { return Err(Unauthorized); }
      if rec.status != Funded { return Err(InvalidStatus); }
      escrows := escrows[id := rec.(status := Disputed)];
      return Ok(true);
    }

    method ResolveDispute(env: Env, id: nat, caller: Address, releaseToSeller: bool)
        returns (res: Result<bool, EscrowError>)
      modifies this
      ensures Did(res, old(View()), EscrowSpec.ResolveDispute(old(View()), env, id, caller, releaseToSeller))
    {
      if !CanAuth(env, caller) { return Err(Trap); }
      if !IsAdmin(View(), caller) { return Err(Unauthorized); }
      if id !in escrows { return Err(NotFound); }
      var rec := escrows[id];
      if rec.status != Disputed { return Err(NotDisputed); }
      if releaseToSeller {
        res := PaySeller(env, rec);
      } else {
        res := PayBuyer(env, rec);
      }
    }

    method VoteDispute(env: Env, id: nat, arbiter: Address, releaseToSeller: bool)
        returns (res: Result<bool, EscrowError>)
      modifies this
      ensures Did(res, old(View()), EscrowSpec.VoteDispute(old(View()), env, id, arbiter, releaseToSeller))
    {
      if !CanAuth(env, arbiter) { return Err(Trap); }
      if quorum.None? { return Err(QuorumConfigNotSet); }
      if arbiter !in quorum.value.arbiters { return Err(NotAnArbiter); }
      if id !in escrows { return Err(NotFound); }
      if escrows[id].status != Disputed { return Err(NotDisputed); }
      var cast := if id in votes then votes[id] else [];
      for i := 0 to |cast|
        invariant forall j :: 0 <= j < i ==> cast[j].arbiter != arbiter
        invariant View() == old(View())
      {
        if cast[i].arbiter == arbiter { return Err(AlreadyVoted); }
      }
      votes := votes[id := cast + [DisputeVote(arbiter, releaseToSeller)]];
      return Ok(true);
    }

    method ResolveDisputeQuorum(env: Env, id: nat, caller: Address) returns (res: Result<bool, EscrowError>)
      modifies this
      ensures Did(res, old(View()), EscrowSpec.ResolveDisputeQuorum(old(View()), env, id, caller))
    {
      if !CanAuth(env, caller) { return Err(Trap); }
      if id !in escrows { return Err(NotFound); }
      var rec := escrows[id];
      if rec.status != Disputed { return Err(NotDisputed); }
      if quorum.None? { return Err(QuorumConfigNotSet); }
      var cast := if id in votes then votes[id] else [];
      var sellerVotes := CountSide(cast, quorum.value.arbiters, true);
      var buyerVotes := CountSide(cast, quorum.value.arbiters, false);
      if sellerVotes >= quorum.value.threshold && buyerVotes >= quorum.value.threshold {
        return Err(ConflictingQuorum);
      } else if sellerVotes >= quorum.value.threshold {
        res := PaySeller(env, rec);
      } else if buyerVotes >= quorum.value.threshold {
        res := PayBuyer(env, rec);
      } else {
        return Err(QuorumNotReached);
      }
    }

    static method CountSide(cast: seq<DisputeVote>, arbiters: seq<Address>, toSeller: bool) returns (count: nat)
      ensures count == CountVotes(cast, arbiters, toSeller)
    {
      count := 0;
      for i := 0 to |cast|
        invariant count == CountVotes(cast[..i], arbiters, toSeller)
      {
        assert cast[..i + 1] == cast[..i] + [cast[i]];
        CountVotesLast(cast[..i], cast[i], arbiters, toSeller);
        if cast[i].releaseToSeller == toSeller && cast[i].arbiter in arbiters {
          count := count + 1;
        }
      }
      assert cast[..|cast|] == cast;
    }
  }
}
