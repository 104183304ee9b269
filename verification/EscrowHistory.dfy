/** What storage says of the past: every setting is what the last call that sets it gave, every status is what
    the last call on its escrow made of it, and an error names something that is so. */
module EscrowHistory {
  import opened Common
  import opened Soroban
  import opened TokenLedger
  import opened EscrowSpec
  import opened EscrowInvariant
  import opened EscrowTheorems
  import opened EscrowAuthority

  // ---- Exactly which calls go through

  /** What must be so for a call on the settings to succeed; in no order. */
  ghost predicate Admitted(s: Storage, c: Call) {
    match c
    case CInitialize(_, feeBps, _, lo, hi) => s.admin.None? && feeBps <= 1000 && 1 <= lo <= hi
    case CSetLimits(caller, lo, hi) => IsAdmin(s, caller) && 1 <= lo <= hi
    case CSetQuorumConfig(caller, arbiters, threshold) =>
      IsAdmin(s, caller) && Distinct(arbiters) && 1 <= threshold <= |arbiters|
    case CUpdateFee(caller, feeBps) => IsAdmin(s, caller) && feeBps <= 1000
    case CAddToken(caller, _) => IsAdmin(s, caller)
    case CRemoveToken(caller, _) => IsAdmin(s, caller)
    case CSetCreatePaused(caller, _) => IsAdmin(s, caller)
    case CProposeAdmin(caller, _) => s.admin == Some(caller)
    case CAcceptAdmin(caller) => s.pendingAdmin == Some(caller)
    case CCancelAdminTransfer(caller) => s.admin == Some(caller) && s.pendingAdmin.Some?
    case CAddCoAdmin(caller, coAdmin) => s.admin == Some(caller) && !IsAdmin(s, coAdmin)
    case CRemoveCoAdmin(caller, coAdmin) => s.admin == Some(caller) && coAdmin in s.adminList
    case _ => false
  }

  /** A call on the settings succeeds exactly when it is admitted and signed by somebody who can sign, which
      initialize does not ask for. */
  lemma SettingSucceedsExactlyWhen(self: Address, s: Storage, env: Env, c: Call)
    requires Reachable(self, s) && env.self == self && !IsMoneyCall(c)
    ensures Invoke(s, env, c).Ok? <==> (c.CInitialize? || CallerOf(c) != self) && Admitted(s, c)
  {
    ReachableInv(self, s);
    if c.CSetQuorumConfig? { NoRepeatsIsDistinct(c.arbiters); }
  }

  // ---- What the last call on a topic left

  datatype Topic =
    | Rate | Treasury | Limits | Quorum | Pause | Token(token: Address)
    | Primary | Nominee | CoAdmin(a: Address)
    | Fate(id: nat)

  predicate On(c: Call, topic: Topic) {
    match topic
    case Rate => c.CInitialize? || c.CUpdateFee?
    case Treasury => c.CInitialize?
    case Limits => c.CInitialize? || c.CSetLimits?
    case Quorum => c.CSetQuorumConfig?
    case Pause => c.CSetCreatePaused?
    case Token(t) => (c.CAddToken? || c.CRemoveToken?) && c.token == t
    case Primary => c.CInitialize? || c.CAcceptAdmin?
    case Nominee => c.CProposeAdmin? || c.CCancelAdminTransfer? || c.CAcceptAdmin?
    case CoAdmin(a) => ((c.CAddCoAdmin? || c.CRemoveCoAdmin?) && c.coAdmin == a) || c == CAcceptAdmin(a)
    case Fate(id) => (c.CDispute? || IsSettlingCall(c)) && c.id == id
  }

  /** The last call on the topic that succeeded. */
  function LastOn(self: Address, s: Storage, history: seq<Invocation>, topic: Topic): (last: Option<Call>)
    ensures last.Some? ==> On(last.value, topic)
    decreases |history|
  {
    if history == [] then None
    else
      var earlier, inv := history[..|history| - 1], history[|history| - 1];
      if On(inv.call, topic) && Succeeds(self, Run(self, s, earlier), inv) then Some(inv.call)
      else LastOn(self, s, earlier, topic)
  }

  /** The storage is as `last` left it on the topic, or as deployed if there was no such call. */
  ghost predicate Shows(s: Storage, topic: Topic, last: Option<Call>)
    requires last.Some? ==> On(last.value, topic)
  {
    match topic
    case Rate => s.fee.Some? == last.Some? && (last.Some? ==> s.fee.value.feeBps == last.value.feeBps)
    case Treasury => s.fee.Some? == last.Some? && (last.Some? ==> s.fee.value.treasury == last.value.treasury)
    case Limits =>
      && s.limits.Some? == last.Some?
      && (last.Some? ==> s.limits.value.minAmount == last.value.minAmount
                         && s.limits.value.maxAmount == last.value.maxAmount)
    case Quorum =>
      && s.quorum.Some? == last.Some?
      && (last.Some? ==> s.quorum.value.arbiters == last.value.arbiters
                         && s.quorum.value.threshold == last.value.threshold)
    case Pause => s.createPaused <==> last.Some? && last.value.paused
    case Token(t) => IsTokenAllowed(s, t) <==> last.Some? && last.value.CAddToken?
    case Primary => s.admin == if last.None? then None else Some(CallerOf(last.value))
    case Nominee =>
      s.pendingAdmin == if last.Some? && last.value.CProposeAdmin? then Some(last.value.newAdmin) else None
    case CoAdmin(a) => a in s.adminList <==> last.Some? && last.value.CAddCoAdmin?
    case Fate(id) => FateShows(s, id, last)
  }

  /** An escrow nobody has acted on is Funded, one last disputed was disputed by a party to it, and any other has
      been closed, the way the call that closed it says. */
  ghost predicate FateShows(s: Storage, id: nat, last: Option<Call>) {
    if id !in s.escrows then last.None?
    else match last
      case None => s.escrows[id].status == Funded
      case Some(CDispute(_, caller)) =>
        s.escrows[id].status == Disputed && (caller == s.escrows[id].buyer || caller == s.escrows[id].seller)
      case Some(CRelease(_, _)) => s.escrows[id].status == Released
      case Some(CRefund(_, _)) => s.escrows[id].status == Refunded
      case Some(CResolveDispute(_, _, toSeller)) => s.escrows[id].status == if toSeller then Released else Refunded
      case Some(_) => !Open(s.escrows[id])
  }

  predicate IsSetting(topic: Topic) { !topic.Fate? && !topic.CoAdmin? }

  lemma SettingStep(s: Storage, env: Env, c: Call, topic: Topic, last: Option<Call>)
    requires ListsOk(s) && Invoke(s, env, c).Ok? && IsSetting(topic) && (last.Some? ==> On(last.value, topic))
    requires Shows(s, topic, last)
    ensures Shows(Invoke(s, env, c).value, topic, if On(c, topic) then Some(c) else last)
  {
    if On(c, topic) {
      OnTopicSets(s, env, c, topic);
    } else if IsMoneyCall(c) {
      MoneyKeepsSettings(s, env, c);
      SameSettingsShow(s, Invoke(s, env, c).value, topic, last);
    } else {
      ConfigTouches(s, env, c);
      OffTopicKeeps(s, Invoke(s, env, c).value, c, topic, last);
    }
  }

  lemma SameSettingsShow(s: Storage, s': Storage, topic: Topic, last: Option<Call>)
    requires SettingsOf(s') == SettingsOf(s) && IsSetting(topic) && (last.Some? ==> On(last.value, topic))
    requires Shows(s, topic, last)
    ensures Shows(s', topic, last)
  {
  }

  lemma OnTopicSets(s: Storage, env: Env, c: Call, topic: Topic)
    requires ListsOk(s) && Invoke(s, env, c).Ok? && IsSetting(topic) && On(c, topic)
    ensures Shows(Invoke(s, env, c).value, topic, Some(c))
  {
  }

  /** What a call on the settings cannot touch. */
  ghost predicate Untouched(s: Storage, s': Storage, c: Call) {
    && (On(c, Rate) || s'.fee == s.fee)
    && (On(c, Treasury) || s'.fee.Some? == s.fee.Some?)
    && (On(c, Treasury) || s.fee.None? || (s'.fee.Some? && s'.fee.value.treasury == s.fee.value.treasury))
    && (On(c, Limits) || s'.limits == s.limits)
    && (On(c, Quorum) || s'.quorum == s.quorum)
    && (On(c, Pause) || s'.createPaused == s.createPaused)
    && (forall t :: On(c, Token(t)) || IsTokenAllowed(s', t) == IsTokenAllowed(s, t))
    && (On(c, Primary) || s'.admin == s.admin)
    && (On(c, Nominee) || s'.pendingAdmin == s.pendingAdmin)
  }

  lemma ConfigTouches(s: Storage, env: Env, c: Call)
    requires !IsMoneyCall(c) && Invoke(s, env, c).Ok?
    ensures Untouched(s, Invoke(s, env, c).value, c)
  {
  }

  lemma OffTopicKeeps(s: Storage, s': Storage, c: Call, topic: Topic, last: Option<Call>)
    requires Untouched(s, s', c) && IsSetting(topic) && !On(c, topic)
    requires (last.Some? ==> On(last.value, topic)) && Shows(s, topic, last)
    ensures Shows(s', topic, last)
  {
  }

  lemma MoneyKeepsSettings(s: Storage, env: Env, c: Call)
    requires IsMoneyCall(c) && Invoke(s, env, c).Ok?
    ensures SettingsOf(Invoke(s, env, c).value) == SettingsOf(s)
  {
    if IsSettlingCall(c) { var toSeller := SettlingCall(s, env, c); }
  }

  lemma CoAdminStep(s: Storage, env: Env, c: Call, a: Address)
    requires ListsOk(s) && Invoke(s, env, c).Ok?
    ensures a in Invoke(s, env, c).value.adminList <==>
              if On(c, CoAdmin(a)) then c.CAddCoAdmin? else a in s.adminList
  {
    if IsMoneyCall(c) { MoneyKeepsSettings(s, env, c); }
    if c.CRemoveCoAdmin? { RemoveFirstRemoves(s.adminList, c.coAdmin); }
    if c.CAcceptAdmin? { RemoveFirstRemoves(s.adminList, c.caller); }
  }

  lemma FateStep(s: Storage, env: Env, c: Call, id: nat, last: Option<Call>)
    requires BookOk(env.self, s) && Invoke(s, env, c).Ok?
    requires FateShows(s, id, last)
    ensures FateShows(Invoke(s, env, c).value, id, if On(c, Fate(id)) then Some(c) else last)
  {
    if IsSettlingCall(c) {
      FateSettles(s, env, c, id, last);
    } else if c.CDispute? || c.CDeposit? {
      FateOpens(s, env, c, id, last);
    } else if !IsMoneyCall(c) {
      ConfigCall(s, env, c);
    }
  }

  lemma FateSettles(s: Storage, env: Env, c: Call, id: nat, last: Option<Call>)
    requires BookOk(env.self, s) && IsSettlingCall(c) && Invoke(s, env, c).Ok? && FateShows(s, id, last)
    ensures FateShows(Invoke(s, env, c).value, id, if On(c, Fate(id)) then Some(c) else last)
  {
    var toSeller := SettlingCall(s, env, c);
    SettledStatus(s, env, c.id, toSeller);
  }

  lemma FateOpens(s: Storage, env: Env, c: Call, id: nat, last: Option<Call>)
    requires BookOk(env.self, s) && (c.CDispute? || c.CDeposit?) && Invoke(s, env, c).Ok? && FateShows(s, id, last)
    ensures FateShows(Invoke(s, env, c).value, id, if On(c, Fate(id)) then Some(c) else last)
  {
  }

  lemma {:induction false} LastOnShows(self: Address, s: Storage, history: seq<Invocation>, topic: Topic)
    requires Inv(self, s) && Shows(s, topic, None)
    ensures Shows(Run(self, s, history), topic, LastOn(self, s, history, topic))
    decreases |history|
  {
    if history != [] {
      var earlier, inv := history[..|history| - 1], history[|history| - 1];
      assert history == earlier + [inv];
      LastOnShows(self, s, earlier, topic);
      RunOneMore(self, s, earlier, inv);
      RunKeepsInv(self, s, earlier);
      var mid, last := Run(self, s, earlier), LastOn(self, s, earlier, topic);
      if Succeeds(self, mid, inv) { StepShows(mid, EnvOf(self, inv), inv.call, topic, last); }
    }
  }

  lemma StepShows(s: Storage, env: Env, c: Call, topic: Topic, last: Option<Call>)
    requires ListsOk(s) && BookOk(env.self, s) && Invoke(s, env, c).Ok? && (last.Some? ==> On(last.value, topic))
    requires Shows(s, topic, last)
    ensures Shows(Invoke(s, env, c).value, topic, if On(c, topic) then Some(c) else last)
  {
    match topic
    case Fate(id) => FateStep(s, env, c, id, last);
    case CoAdmin(a) => CoAdminStep(s, env, c, a);
    case _ => SettingStep(s, env, c, topic, last);
  }

  /** Over every history from deployment: rate, treasury, limits, quorum, pause, accepted tokens, primary admin,
      nominee and co-admins are each what the last successful call on them gave, and the status of an escrow is
      what the last successful call on it made of it. */
  lemma StorageIsAsLastSet(self: Address, ledger: Ledger, history: seq<Invocation>, topic: Topic)
    requires forall t :: Supply(ledger, t) <= I128_MAX
    ensures Shows(Run(self, Deployed(ledger), history), topic, LastOn(self, Deployed(ledger), history, topic))
  {
    LastOnShows(self, Deployed(ledger), history, topic);
  }

  lemma {:induction false} LastOnHappened(self: Address, s: Storage, history: seq<Invocation>, topic: Topic)
    returns (i: nat)
    requires LastOn(self, s, history, topic).Some?
    ensures i < |history| && Some(history[i].call) == LastOn(self, s, history, topic)
    ensures Succeeds(self, Run(self, s, history[..i]), history[i])
    decreases |history|
  {
    var n := |history| - 1;
    var earlier, inv := history[..n], history[n];
    if On(inv.call, topic) && Succeeds(self, Run(self, s, earlier), inv) {
      i := n;
    } else {
      i := LastOnHappened(self, s, earlier, topic);
      assert earlier[..i] == history[..i];
    }
  }

  /** An escrow that is in dispute was put there by a successful call of its buyer or its seller. */
  lemma DisputedByAParty(self: Address, ledger: Ledger, history: seq<Invocation>, id: nat) returns (i: nat)
    requires forall t :: Supply(ledger, t) <= I128_MAX
    requires var s := Run(self, Deployed(ledger), history); id in s.escrows && s.escrows[id].status == Disputed
    ensures i < |history| && history[i].call.CDispute? && history[i].call.id == id
    ensures Succeeds(self, Run(self, Deployed(ledger), history[..i]), history[i])
    ensures var rec := Run(self, Deployed(ledger), history).escrows[id];
            history[i].call.caller == rec.buyer || history[i].call.caller == rec.seller
  {
    StorageIsAsLastSet(self, ledger, history, Fate(id));
    i := LastOnHappened(self, Deployed(ledger), history, Fate(id));
  }

  /** Who administers: the one initialize named or the last nominee to accept, and whoever was last added as
      co-admin and neither removed nor made primary since. */
  lemma AdministersExactlyWhen(self: Address, ledger: Ledger, history: seq<Invocation>, a: Address)
    requires forall t :: Supply(ledger, t) <= I128_MAX
    ensures var primary := LastOn(self, Deployed(ledger), history, Primary);
            var co := LastOn(self, Deployed(ledger), history, CoAdmin(a));
            IsAdmin(Run(self, Deployed(ledger), history), a) <==>
              (primary.Some? && CallerOf(primary.value) == a) || (co.Some? && co.value.CAddCoAdmin?)
  {
    StorageIsAsLastSet(self, ledger, history, Primary);
    StorageIsAsLastSet(self, ledger, history, CoAdmin(a));
    RunKeepsInv(self, Deployed(ledger), history);
  }

  // ---- Reasons

  /** What each error says about storage and call. */
  ghost predicate IsSo(self: Address, s: Storage, env: Env, c: Call, e: EscrowError) {
    match e
    case AlreadyInitialized => c.CInitialize? && s.admin.Some?
    case InvalidFeeBps => (c.CInitialize? || c.CUpdateFee?) && c.feeBps > 1000
    case InvalidLimits => (c.CInitialize? || c.CSetLimits?) && !(1 <= c.minAmount <= c.maxAmount)
    case InvalidQuorum => c.CSetQuorumConfig? && !(Distinct(c.arbiters) && 1 <= c.threshold <= |c.arbiters|)
    case Unauthorized => !MayAsk(s, c)
    case NotFound =>
      if HasId(c) then c.id !in s.escrows
      else s.admin.None? || (c.CRemoveCoAdmin? && c.coAdmin !in s.adminList)
    case NoPendingTransfer => s.pendingAdmin.None?
    case InvalidPendingAdmin => c.CAcceptAdmin? && s.pendingAdmin.Some? && s.pendingAdmin != Some(c.caller)
    case AdminAlreadyExists => c.CAddCoAdmin? && IsAdmin(s, c.coAdmin)
    case CreationPaused => c.CDeposit? && s.createPaused
    case TokenNotWhitelisted => c.CDeposit? && c.token !in s.whitelist
    case InvalidAmount => c.CDeposit? && c.amount <= 0
    case AmountBelowMin => c.CDeposit? && s.limits.Some? && c.amount < s.limits.value.minAmount
    case AmountAboveMax => c.CDeposit? && s.limits.Some? && c.amount > s.limits.value.maxAmount
    case AlreadyReleased => HasId(c) && c.id in s.escrows && s.escrows[c.id].status == Released
    case AlreadyRefunded => HasId(c) && c.id in s.escrows && s.escrows[c.id].status == Refunded
    case InvalidStatus => HasId(c) && c.id in s.escrows && s.escrows[c.id].status != Funded
    case NotDisputed => HasId(c) && c.id in s.escrows && s.escrows[c.id].status != Disputed
    case TimeoutNotReached =>
      && c.CRefund? && c.id in s.escrows && c.caller == s.escrows[c.id].buyer
      && env.sequence < s.escrows[c.id].timeoutLedger
    case QuorumConfigNotSet => s.quorum.None?
    case NotAnArbiter => c.CVoteDispute? && s.quorum.Some? && c.caller !in s.quorum.value.arbiters
    case AlreadyVoted => c.CVoteDispute? && exists v :: v in VotesOf(s, c.id) && v.arbiter == c.caller
    case QuorumNotReached =>
      c.CResolveDisputeQuorum? && s.quorum.Some? && !Reached(s, c.id, true) && !Reached(s, c.id, false)
    case ConflictingQuorum =>
      c.CResolveDisputeQuorum? && s.quorum.Some? && Reached(s, c.id, true) && Reached(s, c.id, false)
    case Trap =>
      || (!c.CInitialize? && CallerOf(c) == self)
      || c.CTransfer?
      || (c.CDeposit? && (s.limits.None? || c.amount > Balance(s.ledger, c.token, c.caller)
                          || s.lastEscrowId == U64_MAX || env.sequence + c.timeoutLedgers > U32_MAX))
  }

  predicate HasId(c: Call) { IsSettlingCall(c) || c.CDispute? || c.CVoteDispute? }

  /** The caller is one of those the entry point is for. */
  predicate MayAsk(s: Storage, c: Call) {
    match c
    case CRelease(id, a) => id in s.escrows && (a == s.escrows[id].buyer || IsAdmin(s, a))
    case CRefund(id, a) => id in s.escrows && (a == s.escrows[id].buyer || a == s.escrows[id].seller || IsAdmin(s, a))
    case CDispute(id, a) => id in s.escrows && (a == s.escrows[id].buyer || a == s.escrows[id].seller)
    case CProposeAdmin(a, _) => s.admin == Some(a)
    case CCancelAdminTransfer(a) => s.admin == Some(a)
    case CAddCoAdmin(a, _) => s.admin == Some(a)
    case CRemoveCoAdmin(a, _) => s.admin == Some(a)
    case CAcceptAdmin(_) => true
    case _ => IsAdmin(s, CallerOf(c))
  }

  /** Enough distinct current arbiters voted for the side. */
  ghost predicate Reached(s: Storage, id: nat, toSeller: bool)
    requires s.quorum.Some?
  {
    |Voters(VotesOf(s, id), s.quorum.value.arbiters, toSeller)| >= s.quorum.value.threshold
  }

  /** No call fails for a reason that is not so. In particular, a call by somebody who can sign traps only if it
      is a deposit before any limits are set, not covered, or out of ids or ledgers, or a plain transfer. */
  lemma ErrorsAreSo(self: Address, s: Storage, env: Env, c: Call)
    requires Reachable(self, s) && env.self == self && Invoke(s, env, c).Err?
    ensures IsSo(self, s, env, c, Invoke(s, env, c).error)
  {
    ReachableInv(self, s);
    if !IsMoneyCall(c) {
      SettingErrorsAreSo(self, s, env, c);
    } else if IsSettlingCall(c) {
      SettlingErrorsAreSo(self, s, env, c);
    } else {
      OtherErrorsAreSo(self, s, env, c);
    }
  }

  lemma SettingErrorsAreSo(self: Address, s: Storage, env: Env, c: Call)
    requires ListsOk(s) && env.self == self && !IsMoneyCall(c) && Invoke(s, env, c).Err?
    ensures IsSo(self, s, env, c, Invoke(s, env, c).error)
  {
    if IsAdminCall(c) { AdminErrorsAreSo(self, s, env, c); } else { ConfigErrorsAreSo(self, s, env, c); }
  }

  lemma AdminErrorsAreSo(self: Address, s: Storage, env: Env, c: Call)
    requires ListsOk(s) && env.self == self && IsAdminCall(c) && Invoke(s, env, c).Err?
    ensures IsSo(self, s, env, c, Invoke(s, env, c).error)
  {
  }

  lemma ConfigErrorsAreSo(self: Address, s: Storage, env: Env, c: Call)
    requires ListsOk(s) && env.self == self && !IsMoneyCall(c) && !IsAdminCall(c) && Invoke(s, env, c).Err?
    ensures IsSo(self, s, env, c, Invoke(s, env, c).error)
  {
    if c.CSetQuorumConfig? { NoRepeatsIsDistinct(c.arbiters); }
  }

  lemma OtherErrorsAreSo(self: Address, s: Storage, env: Env, c: Call)
    requires Inv(self, s) && env.self == self && IsMoneyCall(c) && !IsSettlingCall(c) && Invoke(s, env, c).Err?
    ensures IsSo(self, s, env, c, Invoke(s, env, c).error)
  {
    if c.CDeposit? { DepositErrorsAreSo(self, s, env, c); } else { DisputeErrorsAreSo(self, s, env, c); }
  }

  lemma DisputeErrorsAreSo(self: Address, s: Storage, env: Env, c: Call)
    requires env.self == self && (c.CDispute? || c.CVoteDispute? || c.CTransfer?) && Invoke(s, env, c).Err?
    ensures IsSo(self, s, env, c, Invoke(s, env, c).error)
  {
  }

  lemma DepositErrorsAreSo(self: Address, s: Storage, env: Env, c: Call)
    requires ListsOk(s) && (forall t :: Supply(s.ledger, t) <= I128_MAX) && env.self == self
    requires c.CDeposit? && Invoke(s, env, c).Err?
    ensures IsSo(self, s, env, c, Invoke(s, env, c).error)
  {
    if 0 <= c.amount <= Balance(s.ledger, c.token, c.caller) {
      CoveredTransferSucceeds(s.ledger, c.token, c.caller, self, c.amount);
    }
  }

  lemma SettlingErrorsAreSo(self: Address, s: Storage, env: Env, c: Call)
    requires Reachable(self, s) && Inv(self, s) && env.self == self && IsSettlingCall(c) && Invoke(s, env, c).Err?
    ensures IsSo(self, s, env, c, Invoke(s, env, c).error)
  {
    if CallerOf(c) != self { ClosesExactlyWhen(self, s, env, c.id, c.caller, c.CResolveDispute? && c.toSeller); }
    if c.CResolveDisputeQuorum? {
      QuorumErrorsAreSo(self, s, env, c);
    } else {
      ClosingErrorsAreSo(self, s, env, c);
    }
  }

  lemma ClosingErrorsAreSo(self: Address, s: Storage, env: Env, c: Call)
    requires (c.CRelease? || c.CRefund? || c.CResolveDispute?) && env.self == self && Invoke(s, env, c).Err?
    requires CallerOf(c) == self || Invoke(s, env, c) != Err(Trap)
    ensures IsSo(self, s, env, c, Invoke(s, env, c).error)
  {
    match c
    case CRelease(id, caller) => ReleaseErrorsAreSo(s, env, id, caller);
    case CRefund(id, caller) => RefundErrorsAreSo(s, env, id, caller);
    case CResolveDispute(id, caller, toSeller) => ResolveErrorsAreSo(s, env, id, caller, toSeller);
  }

  lemma ReleaseErrorsAreSo(s: Storage, env: Env, id: nat, caller: Address)
    requires Release(s, env, id, caller).Err? && (caller == env.self || Release(s, env, id, caller) != Err(Trap))
    ensures IsSo(env.self, s, env, CRelease(id, caller), Release(s, env, id, caller).error)
  {
    if id in s.escrows { FailsOnlyByTrap(s, env, s.escrows[id], true); }
  }

  lemma RefundErrorsAreSo(s: Storage, env: Env, id: nat, caller: Address)
    requires Refund(s, env, id, caller).Err? && (caller == env.self || Refund(s, env, id, caller) != Err(Trap))
    ensures IsSo(env.self, s, env, CRefund(id, caller), Refund(s, env, id, caller).error)
  {
    if id in s.escrows { FailsOnlyByTrap(s, env, s.escrows[id], false); }
  }

  lemma ResolveErrorsAreSo(s: Storage, env: Env, id: nat, caller: Address, toSeller: bool)
    requires var r := ResolveDispute(s, env, id, caller, toSeller); r.Err? && (caller == env.self || r != Err(Trap))
    ensures IsSo(env.self, s, env, CResolveDispute(id, caller, toSeller),
                 ResolveDispute(s, env, id, caller, toSeller).error)
  {
    if id in s.escrows { FailsOnlyByTrap(s, env, s.escrows[id], toSeller); }
  }

  /** Paying out either goes through or traps. */
  lemma FailsOnlyByTrap(s: Storage, env: Env, rec: EscrowRecord, toSeller: bool)
    ensures Settle(s, env, rec, toSeller).Err? ==> Settle(s, env, rec, toSeller).error == Trap
  {
  }

  lemma QuorumErrorsAreSo(self: Address, s: Storage, env: Env, c: Call)
    requires Reachable(self, s) && env.self == self && c.CResolveDisputeQuorum? && Invoke(s, env, c).Err?
    requires CallerOf(c) == self || Invoke(s, env, c) != Err(Trap)
    ensures IsSo(self, s, env, c, Invoke(s, env, c).error)
  {
    if c.caller != self && c.id in s.escrows && s.escrows[c.id].status == Disputed && s.quorum.Some? {
      QuorumDecides(self, s, env, c.id, c.caller);
      FailsOnlyByTrap(s, env, s.escrows[c.id], true);
      FailsOnlyByTrap(s, env, s.escrows[c.id], false);
    }
  }
}
