/** The escrow contract's entry points as functions on its storage. An invocation that returns an
    error or traps leaves the storage as it was; `Run` applies that rule to whole histories. */
module EscrowSpec {
  import opened Common
  import opened Soroban
  import opened TokenLedger

  datatype EscrowStatus = Funded | Released | Refunded | Disputed

  datatype EscrowRecord = EscrowRecord(
    escrowId: nat, buyer: Address, seller: Address, token: Address, amount: int,
    status: EscrowStatus, orderId: string, createdAt: nat, timeoutLedger: nat)

  datatype FeeConfig = FeeConfig(feeBps: nat, treasury: Address)
  datatype AmountLimits = AmountLimits(minAmount: int, maxAmount: int)
  datatype QuorumConfig = QuorumConfig(arbiters: seq<Address>, threshold: nat)
  datatype DisputeVote = DisputeVote(arbiter: Address, releaseToSeller: bool)

  /** One payout: which escrow, which way, and who received how much, in order. */
  datatype Payout = Payout(escrowId: nat, toSeller: bool, legs: seq<(Address, int)>)

  /** Instance and persistent storage, the token ledger, and the history of payouts. */
  datatype Storage = Storage(
    admin: Option<Address>, pendingAdmin: Option<Address>, adminList: seq<Address>,
    fee: Option<FeeConfig>, limits: Option<AmountLimits>, quorum: Option<QuorumConfig>,
    whitelist: seq<Address>, tokenEnabled: map<Address, bool>, createPaused: bool,
    lastEscrowId: nat, escrows: map<nat, EscrowRecord>, votes: map<nat, seq<DisputeVote>>,
    ledger: Ledger, payouts: seq<Payout>)

  /** The contract's own address and what the host tells it about the ledger. */
  datatype Env = Env(self: Address, sequence: nat, timestamp: nat)

  datatype EscrowError =
    | AlreadyInitialized | NotFound | Unauthorized | AlreadyReleased | AlreadyRefunded | InvalidStatus
    | TimeoutNotReached | NotDisputed | InvalidAmount | TokenNotWhitelisted | NoPendingTransfer
    | InvalidPendingAdmin | AdminAlreadyExists | InvalidFeeBps | AmountBelowMin | AmountAboveMax
    | InvalidLimits | NotAnArbiter | AlreadyVoted | InvalidQuorum | QuorumNotReached
    | QuorumConfigNotSet | ConflictingQuorum | CreationPaused
    | Trap

  type Outcome = Result<Storage, EscrowError>

  function Deployed(ledger: Ledger): Storage {
    Storage(None, None, [], None, None, None, [], map[], false, 0, map[], map[], ledger, [])
  }

  /** Nobody can authorise as the contract itself. */
  predicate CanAuth(env: Env, a: Address) { a != env.self }

  predicate IsAdmin(s: Storage, a: Address) {
    s.admin.Some? && (a == s.admin.value || a in s.adminList)
  }

  predicate IsTokenAllowed(s: Storage, token: Address) {
    token in s.tokenEnabled && s.tokenEnabled[token]
  }

  /** `list` without its first occurrence of `a`. */
  function RemoveFirst(list: seq<Address>, a: Address): seq<Address> {
    if list == [] then [] else if list[0] == a then list[1..] else [list[0]] + RemoveFirst(list[1..], a)
  }

  predicate NoRepeats(list: seq<Address>) {
    list == [] || (list[0] !in list[1..] && NoRepeats(list[1..]))
  }

  // ---- Configuration

  function Initialize(s: Storage, admin: Address, feeBps: nat, treasury: Address, minAmount: int,
      maxAmount: int): Outcome {
    if s.admin.Some? then Err(AlreadyInitialized)
    else if feeBps > 1000 then Err(InvalidFeeBps)
    else if minAmount <= 0 || maxAmount < minAmount then Err(InvalidLimits)
    else Ok(s.(admin := Some(admin), lastEscrowId := 0, fee := Some(FeeConfig(feeBps, treasury)),
               limits := Some(AmountLimits(minAmount, maxAmount))))
  }

  function SetLimits(s: Storage, env: Env, admin: Address, minAmount: int, maxAmount: int): Outcome {
    if !CanAuth(env, admin) then Err(Trap)
    else if !IsAdmin(s, admin) then Err(Unauthorized)
    else if minAmount <= 0 || maxAmount < minAmount then Err(InvalidLimits)
    else Ok(s.(limits := Some(AmountLimits(minAmount, maxAmount))))
  }

  function SetQuorumConfig(s: Storage, env: Env, admin: Address, arbiters: seq<Address>, threshold: nat): Outcome {
    if !CanAuth(env, admin) then Err(Trap)
    else if !IsAdmin(s, admin) then Err(Unauthorized)
    else if threshold == 0 || threshold > |arbiters| then Err(InvalidQuorum)
    else if !NoRepeats(arbiters) then Err(InvalidQuorum)
    else Ok(s.(quorum := Some(QuorumConfig(arbiters, threshold))))
  }

  function UpdateFee(s: Storage, env: Env, admin: Address, newFeeBps: nat): Outcome {
    if !CanAuth(env, admin) then Err(Trap)
    else if !IsAdmin(s, admin) then Err(Unauthorized)
    else if newFeeBps > 1000 then Err(InvalidFeeBps)
    else if s.fee.None? then Err(Trap)
    else Ok(s.(fee := Some(s.fee.value.(feeBps := newFeeBps))))
  }

  function AddToken(s: Storage, env: Env, admin: Address, token: Address): Outcome {
    if !CanAuth(env, admin) then Err(Trap)
    else if !IsAdmin(s, admin) then Err(Unauthorized)
    else if IsTokenAllowed(s, token) then Ok(s)
    else Ok(s.(whitelist := s.whitelist + [token], tokenEnabled := s.tokenEnabled[token := true]))
  }

  function RemoveToken(s: Storage, env: Env, admin: Address, token: Address): Outcome {
    if !CanAuth(env, admin) then Err(Trap)
    else if !IsAdmin(s, admin) then Err(Unauthorized)
    else Ok(s.(whitelist := RemoveFirst(s.whitelist, token), tokenEnabled := s.tokenEnabled[token := false]))
  }

  function SetCreatePaused(s: Storage, env: Env, admin: Address, paused: bool): Outcome {
    if !CanAuth(env, admin) then Err(Trap)
    else if !IsAdmin(s, admin) then Err(Unauthorized)
    else Ok(s.(createPaused := paused))
  }

  // ---- Administrators

  function ProposeAdmin(s: Storage, env: Env, currentAdmin: Address, newAdmin: Address): Outcome {
    if !CanAuth(env, currentAdmin) then Err(Trap)
    else if s.admin.None? then Err(NotFound)
    else if currentAdmin != s.admin.value then Err(Unauthorized)
    else Ok(s.(pendingAdmin := Some(newAdmin)))
  }

  function AcceptAdmin(s: Storage, env: Env, newAdmin: Address): Outcome {
    if !CanAuth(env, newAdmin) then Err(Trap)
    else if s.pendingAdmin.None? then Err(NoPendingTransfer)
    else if newAdmin != s.pendingAdmin.value then Err(InvalidPendingAdmin)
    else Ok(s.(adminList := RemoveFirst(s.adminList, newAdmin), admin := Some(newAdmin), pendingAdmin := None))
  }

  function CancelAdminTransfer(s: Storage, env: Env, currentAdmin: Address): Outcome {
    if !CanAuth(env, currentAdmin) then Err(Trap)
    else if s.admin.None? then Err(NotFound)
    else if currentAdmin != s.admin.value then Err(Unauthorized)
    else if s.pendingAdmin.None? then Err(NoPendingTransfer)
    else Ok(s.(pendingAdmin := None))
  }

  function AddCoAdmin(s: Storage, env: Env, admin: Address, newCoAdmin: Address): Outcome {
    if !CanAuth(env, admin) then Err(Trap)
    else if s.admin.None? then Err(NotFound)
    else if admin != s.admin.value then Err(Unauthorized)
    else if newCoAdmin == s.admin.value then Err(AdminAlreadyExists)
    else if newCoAdmin in s.adminList then Err(AdminAlreadyExists)
    else Ok(s.(adminList := s.adminList + [newCoAdmin]))
  }

  function RemoveCoAdmin(s: Storage, env: Env, admin: Address, coAdmin: Address): Outcome {
    if !CanAuth(env, admin) then Err(Trap)
    else if s.admin.None? then Err(NotFound)
    else if admin != s.admin.value then Err(Unauthorized)
    else if coAdmin !in s.adminList then Err(NotFound)
    else Ok(s.(adminList := RemoveFirst(s.adminList, coAdmin)))
  }

  // ---- Money

  function Deposit(s: Storage, env: Env, buyer: Address, seller: Address, token: Address, amount: int,
                   orderId: string, timeoutLedgers: nat): Outcome
  {
    if !CanAuth(env, buyer) then Err(Trap)
    else if s.createPaused then Err(CreationPaused)
    else if !IsTokenAllowed(s, token) then Err(TokenNotWhitelisted)
    else if amount <= 0 then Err(InvalidAmount)
    else if s.limits.None? then Err(Trap)
    else if amount < s.limits.value.minAmount then Err(AmountBelowMin)
    else if amount > s.limits.value.maxAmount then Err(AmountAboveMax)
    else
      var paid := Transfer(s.ledger, token, buyer, env.self, amount);
      if paid.None? || s.lastEscrowId == U64_MAX || env.sequence + timeoutLedgers > U32_MAX then Err(Trap)
      else
        var id := s.lastEscrowId + 1;
        Ok(s.(ledger := paid.value, lastEscrowId := id,
              escrows := s.escrows[id := EscrowRecord(id, buyer, seller, token, amount, Funded, orderId,
                                                      env.timestamp, env.sequence + timeoutLedgers)]))
  }

  /** The fee as the contract computes it, which keeps every intermediate small. */
  function FeeOf(amount: int, feeBps: nat): int {
    (amount / 10_000) * feeBps + ((amount % 10_000) * feeBps) / 10_000
  }

  /** Transfers out of the contract one after the other, all or nothing. */
  function PayLegs(ledger: Ledger, token: Address, self: Address, legs: seq<(Address, int)>): Option<Ledger>
    decreases |legs|
  {
    if legs == [] then Some(ledger)
    else match Transfer(ledger, token, self, legs[0].0, legs[0].1)
      case None => None
      case Some(next) => PayLegs(next, token, self, legs[1..])
  }

  function SellerLegs(rec: EscrowRecord, fee: FeeConfig): seq<(Address, int)> {
    var cut := FeeOf(rec.amount, fee.feeBps);
    (if cut > 0 then [(fee.treasury, cut)] else []) + [(rec.seller, rec.amount - cut)]
  }

  /** Pay an escrow out to its seller (less the fee) or back to its buyer, and close it. */
  function Settle(s: Storage, env: Env, rec: EscrowRecord, toSeller: bool): Outcome {
    if toSeller && s.fee.None? then Err(Trap)
    else
      var legs := if toSeller then SellerLegs(rec, s.fee.value) else [(rec.buyer, rec.amount)];
      match PayLegs(s.ledger, rec.token, env.self, legs)
      case None => Err(Trap)
      case Some(ledger) =>
        var closed := rec.(status := if toSeller then Released else Refunded);
        Ok(s.(ledger := ledger, escrows := s.escrows[rec.escrowId := closed],
              payouts := s.payouts + [Payout(rec.escrowId, toSeller, legs)]))
  }

  function ValidateReleaseStatus(rec: EscrowRecord): Option<EscrowError> {
    if rec.status == Released then Some(AlreadyReleased)
    else if rec.status != Funded then Some(InvalidStatus)
    else None
  }

  function Release(s: Storage, env: Env, id: nat, caller: Address): Outcome {
    if !CanAuth(env, caller) then Err(Trap)
    else if id !in s.escrows then Err(NotFound)
    else
      var rec := s.escrows[id];
      if caller != rec.buyer && !IsAdmin(s, caller) then Err(Unauthorized)
      else match ValidateReleaseStatus(rec)
        case Some(e) => Err(e)
        case None => Settle(s, env, rec, true)
  }

  function Refund(s: Storage, env: Env, id: nat, caller: Address): Outcome {
    if !CanAuth(env, caller) then Err(Trap)
    else if id !in s.escrows then Err(NotFound)
    else
      var rec := s.escrows[id];
      if rec.status == Refunded then Err(AlreadyRefunded)
      else if rec.status != Funded then Err(InvalidStatus)
      else if caller == rec.seller || IsAdmin(s, caller) then Settle(s, env, rec, false)
      else if caller == rec.buyer then
        if env.sequence >= rec.timeoutLedger then Settle(s, env, rec, false) else Err(TimeoutNotReached)
      else Err(Unauthorized)
  }

  function Dispute(s: Storage, env: Env, id: nat, caller: Address): Outcome {
    if !CanAuth(env, caller) then Err(Trap)
    else if id !in s.escrows then Err(NotFound)
    else
      var rec := s.escrows[id];
      if caller != rec.buyer && caller != rec.seller then Err(Unauthorized)
      else if rec.status != Funded then Err(InvalidStatus)
      else Ok(s.(escrows := s.escrows[id := rec.(status := Disputed)]))
  }

  function ResolveDispute(s: Storage, env: Env, id: nat, caller: Address, toSeller: bool): Outcome {
    if !CanAuth(env, caller) then Err(Trap)
    else if !IsAdmin(s, caller) then Err(Unauthorized)
    else if id !in s.escrows then Err(NotFound)
    else if s.escrows[id].status != Disputed then Err(NotDisputed)
    else Settle(s, env, s.escrows[id], toSeller)
  }

  // ---- Arbitration

  function VotesOf(s: Storage, id: nat): seq<DisputeVote> {
    if id in s.votes then s.votes[id] else []
  }

  predicate HasVoted(votes: seq<DisputeVote>, arbiter: Address) {
    exists i :: 0 <= i < |votes| && votes[i].arbiter == arbiter
  }

  function VoteDispute(s: Storage, env: Env, id: nat, arbiter: Address, toSeller: bool): Outcome {
    if !CanAuth(env, arbiter) then Err(Trap)
    else if s.quorum.None? then Err(QuorumConfigNotSet)
    else if arbiter !in s.quorum.value.arbiters then Err(NotAnArbiter)
    else if id !in s.escrows then Err(NotFound)
    else if s.escrows[id].status != Disputed then Err(NotDisputed)
    else if HasVoted(VotesOf(s, id), arbiter) then Err(AlreadyVoted)
    else Ok(s.(votes := s.votes[id := VotesOf(s, id) + [DisputeVote(arbiter, toSeller)]]))
  }

  /** Votes for one side cast by current arbiters. */
  function CountVotes(votes: seq<DisputeVote>, arbiters: seq<Address>, toSeller: bool): nat {
    if votes == [] then 0
    else (if votes[0].releaseToSeller == toSeller && votes[0].arbiter in arbiters then 1 else 0)
         + CountVotes(votes[1..], arbiters, toSeller)
  }

  function ResolveDisputeQuorum(s: Storage, env: Env, id: nat, caller: Address): Outcome {
    if !CanAuth(env, caller) then Err(Trap)
    else if id !in s.escrows then Err(NotFound)
    else if s.escrows[id].status != Disputed then Err(NotDisputed)
    else if s.quorum.None? then Err(QuorumConfigNotSet)
    else
      var q := s.quorum.value;
      var sellerVotes := CountVotes(VotesOf(s, id), q.arbiters, true);
      var buyerVotes := CountVotes(VotesOf(s, id), q.arbiters, false);
      if sellerVotes >= q.threshold && buyerVotes >= q.threshold then Err(ConflictingQuorum)
      else if sellerVotes >= q.threshold then Settle(s, env, s.escrows[id], true)
      else if buyerVotes >= q.threshold then Settle(s, env, s.escrows[id], false)
      else Err(QuorumNotReached)
  }

  // ---- Read-only views

  datatype Eligibility = Eligibility(eligible: bool, reason: string)

  function RefundEligibility(s: Storage, env: Env, id: nat, caller: Address): Eligibility {
    if id !in s.escrows then Eligibility(false, "notfund")
    else
      var rec := s.escrows[id];
      match rec.status
      case Released => Eligibility(false, "released")
      case Refunded => Eligibility(false, "refunded")
      case Disputed => Eligibility(false, "disputed")
      case Funded =>
        if caller == rec.seller || IsAdmin(s, caller) then Eligibility(true, "ok")
        else if caller == rec.buyer then
          if env.sequence >= rec.timeoutLedger then Eligibility(true, "ok") else Eligibility(false, "timeout")
        else Eligibility(false, "noauth")
  }

  function ReleaseEligibility(s: Storage, env: Env, id: nat): Eligibility {
    if id !in s.escrows then Eligibility(false, "notfound")
    else match s.escrows[id].status
      case Funded =>
        if env.sequence >= s.escrows[id].timeoutLedger then Eligibility(false, "timeout") else Eligibility(true, "ok")
      case Released => Eligibility(false, "released")
      case Refunded => Eligibility(false, "refunded")
      case Disputed => Eligibility(false, "disputed")
  }

  // ---- Histories

  /** Every entry point that writes, plus token transfers the contract takes no part in. */
  datatype Call =
    | CInitialize(admin: Address, feeBps: nat, treasury: Address, minAmount: int, maxAmount: int)
    | CSetLimits(caller: Address, minAmount: int, maxAmount: int)
    | CSetQuorumConfig(caller: Address, arbiters: seq<Address>, threshold: nat)
    | CUpdateFee(caller: Address, feeBps: nat)
    | CAddToken(caller: Address, token: Address)
    | CRemoveToken(caller: Address, token: Address)
    | CSetCreatePaused(caller: Address, paused: bool)
    | CProposeAdmin(caller: Address, newAdmin: Address)
    | CAcceptAdmin(caller: Address)
    | CCancelAdminTransfer(caller: Address)
    | CAddCoAdmin(caller: Address, coAdmin: Address)
    | CRemoveCoAdmin(caller: Address, coAdmin: Address)
    | CDeposit(caller: Address, seller: Address, token: Address, amount: int, orderId: string, timeoutLedgers: nat)
    | CRelease(id: nat, caller: Address)
    | CRefund(id: nat, caller: Address)
    | CDispute(id: nat, caller: Address)
    | CResolveDispute(id: nat, caller: Address, toSeller: bool)
    | CVoteDispute(id: nat, caller: Address, toSeller: bool)
    | CResolveDisputeQuorum(id: nat, caller: Address)
    | CTransfer(token: Address, caller: Address, to: Address, amount: int)

  function Invoke(s: Storage, env: Env, c: Call): Outcome {
    match c
    case CInitialize(admin, feeBps, treasury, lo, hi) => Initialize(s, admin, feeBps, treasury, lo, hi)
    case CSetLimits(caller, lo, hi) => SetLimits(s, env, caller, lo, hi)
    case CSetQuorumConfig(caller, arbiters, threshold) => SetQuorumConfig(s, env, caller, arbiters, threshold)
    case CUpdateFee(caller, feeBps) => UpdateFee(s, env, caller, feeBps)
    case CAddToken(caller, token) => AddToken(s, env, caller, token)
    case CRemoveToken(caller, token) => RemoveToken(s, env, caller, token)
    case CSetCreatePaused(caller, paused) => SetCreatePaused(s, env, caller, paused)
    case CProposeAdmin(caller, newAdmin) => ProposeAdmin(s, env, caller, newAdmin)
    case CAcceptAdmin(caller) => AcceptAdmin(s, env, caller)
    case CCancelAdminTransfer(caller) => CancelAdminTransfer(s, env, caller)
    case CAddCoAdmin(caller, coAdmin) => AddCoAdmin(s, env, caller, coAdmin)
    case CRemoveCoAdmin(caller, coAdmin) => RemoveCoAdmin(s, env, caller, coAdmin)
    case CDeposit(caller, seller, token, amount, orderId, timeout) =>
      Deposit(s, env, caller, seller, token, amount, orderId, timeout)
    case CRelease(id, caller) => Release(s, env, id, caller)
    case CRefund(id, caller) => Refund(s, env, id, caller)
    case CDispute(id, caller) => Dispute(s, env, id, caller)
    case CResolveDispute(id, caller, toSeller) => ResolveDispute(s, env, id, caller, toSeller)
    case CVoteDispute(id, caller, toSeller) => VoteDispute(s, env, id, caller, toSeller)
    case CResolveDisputeQuorum(id, caller) => ResolveDisputeQuorum(s, env, id, caller)
    case CTransfer(token, from, to, amount) =>
      if !CanAuth(env, from) then Err(Trap)
      else match Transfer(s.ledger, token, from, to, amount)
        case None => Err(Trap)
        case Some(ledger) => Ok(s.(ledger := ledger))
  }

  /** One block's worth of context and the call made in it. */
  datatype Invocation = Invocation(sequence: nat, timestamp: nat, call: Call)

  function Next(self: Address, s: Storage, inv: Invocation): Storage {
    match Invoke(s, Env(self, inv.sequence, inv.timestamp), inv.call)
    case Ok(s') => s'
    case Err(_) => s
  }

  /** A whole history of invocations; a failed one changes nothing. */
  function Run(self: Address, s: Storage, history: seq<Invocation>): Storage
    decreases |history|
  {
    if history == [] then s else Run(self, Next(self, s, history[0]), history[1..])
  }
}
