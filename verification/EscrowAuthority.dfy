/** Who can change what, over every history of invocations. */
module EscrowAuthority {
  import opened Common
  import opened Soroban
  import opened EscrowSpec
  import opened EscrowInvariant
  import opened EscrowTheorems

  function EnvOf(self: Address, inv: Invocation): Env { Env(self, inv.sequence, inv.timestamp) }

  predicate Succeeds(self: Address, s: Storage, inv: Invocation) {
    Invoke(s, EnvOf(self, inv), inv.call).Ok?
  }

  /** Kinds of calls that a history is to be free of. */
  datatype Kind =
    | Naming(x: Address)     // give x authority or offer it
    | Nominating             // move the nomination in any way
    | Proposing
    | Unpausing
    | Relimiting
    | Listing(token: Address)

  predicate Is(c: Call, kind: Kind) {
    match kind
    case Naming(x) => (c.CAddCoAdmin? && c.coAdmin == x) || (c.CProposeAdmin? && c.newAdmin == x)
    case Nominating => c.CProposeAdmin? || c.CCancelAdminTransfer? || c.CAcceptAdmin?
    case Proposing => c.CProposeAdmin?
    case Unpausing => c.CSetCreatePaused? && !c.paused
    case Relimiting => c.CSetLimits?
    case Listing(token) => c.CAddToken? && c.token == token
  }

  /** No call of that kind succeeds in the history. */
  predicate Without(self: Address, s: Storage, history: seq<Invocation>, kind: Kind)
    decreases |history|
  {
    history == [] ||
      (!(Is(history[0].call, kind) && Succeeds(self, s, history[0]))
            && Without(self, Next(self, s, history[0]), history[1..], kind))
  }

  // ---- Losing authority

  /** x has no authority and none on offer. */
  ghost predicate Outside(s: Storage, x: Address) {
    s.admin.Some? && !IsAdmin(s, x) && s.pendingAdmin != Some(x)
  }

  lemma {:induction false} RemoveFirstKeeps(list: seq<Address>, a: Address)
    ensures forall x :: x in RemoveFirst(list, a) ==> x in list
  {
    if list != [] { RemoveFirstKeeps(list[1..], a); }
  }

  lemma NextOutside(self: Address, s: Storage, inv: Invocation, x: Address)
    requires Outside(s, x) && !(Is(inv.call, Naming(x)) && Succeeds(self, s, inv))
    ensures Outside(Next(self, s, inv), x)
  {
    if Succeeds(self, s, inv) {
      match inv.call
      case CAcceptAdmin(a) => RemoveFirstKeeps(s.adminList, a);
      case CRemoveCoAdmin(_, a) => RemoveFirstKeeps(s.adminList, a);
      case CAddCoAdmin(_, _) =>
      case CProposeAdmin(_, _) =>
      case CCancelAdminTransfer(_) =>
      case _ => OthersKeepAdmins(s, EnvOf(self, inv), inv.call);
    }
  }

  predicate IsAdminCall(c: Call) {
    c.CAcceptAdmin? || c.CRemoveCoAdmin? || c.CAddCoAdmin? || c.CProposeAdmin? || c.CCancelAdminTransfer?
  }

  lemma OthersKeepAdmins(s: Storage, env: Env, c: Call)
    requires s.admin.Some? && !IsAdminCall(c) && Invoke(s, env, c).Ok?
    ensures var s' := Invoke(s, env, c).value;
            s'.admin == s.admin && s'.adminList == s.adminList && s'.pendingAdmin == s.pendingAdmin
  {
    if IsSettlingCall(c) { var toSeller := SettlingCall(s, env, c); }
  }

  lemma {:induction false} OutsideForGood(self: Address, s: Storage, history: seq<Invocation>, x: Address)
    requires Outside(s, x) && Without(self, s, history, Naming(x))
    ensures Outside(Run(self, s, history), x)
    decreases |history|
  {
    if history != [] {
      NextOutside(self, s, history[0], x);
      OutsideForGood(self, Next(self, s, history[0]), history[1..], x);
    }
  }

  /** Over every history in which nobody successfully adds or proposes x, it has no authority. */
  ghost predicate StaysOut(self: Address, s: Storage, x: Address) {
    forall history :: Without(self, s, history, Naming(x)) ==> !IsAdmin(Run(self, s, history), x)
  }

  /** Removing a co-admin takes its authority at once, and for good exactly when it is not the pending
      admin: otherwise it can become the primary admin on its own. */
  lemma RemovalIsFinalExactlyWhen(self: Address, s: Storage, env: Env, caller: Address, x: Address)
    requires Reachable(self, s) && env.self == self && x != self && RemoveCoAdmin(s, env, caller, x).Ok?
    ensures var after := RemoveCoAdmin(s, env, caller, x).value;
            && (forall a :: IsAdmin(after, a) <==> IsAdmin(s, a) && a != x)
            && (StaysOut(self, after, x) <==> s.pendingAdmin != Some(x))
  {
    AuthorityMoves(self, s, env, caller, x);
    var after := RemoveCoAdmin(s, env, caller, x).value;
    if s.pendingAdmin == Some(x) {
      var accept := Invocation(env.sequence, env.timestamp, CAcceptAdmin(x));
      var history := [accept];
      assert history[1..] == [] && Run(self, after, history) == Next(self, after, accept);
      assert Without(self, Next(self, after, accept), history[1..], Naming(x));
      assert Without(self, after, history, Naming(x));
      assert IsAdmin(Run(self, after, history), x);
    } else {
      forall history | Without(self, after, history, Naming(x)) ensures !IsAdmin(Run(self, after, history), x) {
        OutsideForGood(self, after, history, x);
      }
    }
  }

  /** Handover makes the nominee the primary admin and takes the old primary's authority for good exactly
      when the two differ. */
  lemma HandoverIsFinalExactlyWhen(self: Address, s: Storage, env: Env, caller: Address)
    requires Reachable(self, s) && AcceptAdmin(s, env, caller).Ok?
    ensures s.admin.Some?
    ensures var after := AcceptAdmin(s, env, caller).value;
            && (forall a :: IsAdmin(after, a) <==> a == caller || (IsAdmin(s, a) && a != s.admin.value))
            && (StaysOut(self, after, s.admin.value) <==> caller != s.admin.value)
  {
    AuthorityMoves(self, s, env, caller, caller);
    var after, x := AcceptAdmin(s, env, caller).value, s.admin.value;
    if caller == x {
      assert Without(self, after, [], Naming(x)) && Run(self, after, []) == after;
      assert IsAdmin(Run(self, after, []), x);
    } else {
      forall history | Without(self, after, history, Naming(x)) ensures !IsAdmin(Run(self, after, history), x) {
        OutsideForGood(self, after, history, x);
      }
    }
  }

  // ---- Who configures

  /** Everything that is set by an administrator. */
  datatype Settings = Settings(
    admin: Option<Address>, pendingAdmin: Option<Address>, adminList: seq<Address>, fee: Option<FeeConfig>,
    limits: Option<AmountLimits>, quorum: Option<QuorumConfig>, whitelist: seq<Address>,
    tokenEnabled: map<Address, bool>, createPaused: bool)

  function SettingsOf(s: Storage): Settings {
    Settings(s.admin, s.pendingAdmin, s.adminList, s.fee, s.limits, s.quorum, s.whitelist, s.tokenEnabled,
        s.createPaused)
  }

  function CallerOf(c: Call): Address {
    match c
    case CInitialize(admin, _, _, _, _) => admin
    case _ => c.caller
  }

  lemma OutsiderChangesNothing(s: Storage, env: Env, c: Call)
    requires s.admin.Some? && Outside(s, CallerOf(c)) && Invoke(s, env, c).Ok?
    ensures SettingsOf(Invoke(s, env, c).value) == SettingsOf(s)
  {
    if IsSettlingCall(c) { var toSeller := SettlingCall(s, env, c); }
  }

  /** Once initialized, no history of calls by anyone but the administrators and the nominee changes the
      administrators, the nominee, fee, limits, quorum, tokens or the pause; initialize itself included. */
  lemma {:induction false} OutsidersChangeNothing(self: Address, s: Storage, history: seq<Invocation>)
    requires s.admin.Some? && forall i :: 0 <= i < |history| ==> Outside(s, CallerOf(history[i].call))
    ensures SettingsOf(Run(self, s, history)) == SettingsOf(s)
    decreases |history|
  {
    if history != [] {
      var next := Next(self, s, history[0]);
      if Succeeds(self, s, history[0]) { OutsiderChangesNothing(s, EnvOf(self, history[0]), history[0].call); }
      forall i | 0 <= i < |history| - 1 ensures Outside(next, CallerOf(history[1..][i].call)) {
        assert history[1..][i] == history[i + 1] && Outside(s, CallerOf(history[i + 1].call));
      }
      OutsidersChangeNothing(self, next, history[1..]);
    }
  }

  // ---- Nomination

  /** A proposal stands until it is replaced, cancelled or taken up, and the nominee can take it up at any
      time until then. */
  lemma {:induction false} ProposalStands(self: Address, s: Storage, history: seq<Invocation>, x: Address, env: Env)
    requires s.admin.Some? && s.pendingAdmin == Some(x) && env.self == self && x != self
    requires Without(self, s, history, Nominating)
    ensures AcceptAdmin(Run(self, s, history), env, x).Ok?
    ensures AcceptAdmin(Run(self, s, history), env, x).value.admin == Some(x)
    decreases |history|
  {
    if history != [] {
      NextKeepsNominee(self, s, history[0]);
      ProposalStands(self, Next(self, s, history[0]), history[1..], x, env);
    }
  }

  lemma NextKeepsNominee(self: Address, s: Storage, inv: Invocation)
    requires s.admin.Some?
    requires !(Is(inv.call, Nominating) && Succeeds(self, s, inv))
    ensures Next(self, s, inv).admin == s.admin && Next(self, s, inv).pendingAdmin == s.pendingAdmin
  {
    if Succeeds(self, s, inv) && !IsAdminCall(inv.call) { OthersKeepAdmins(s, EnvOf(self, inv), inv.call); }
  }

  lemma {:induction false} NobodyNominated(self: Address, s: Storage, history: seq<Invocation>)
    requires s.admin.Some? && s.pendingAdmin.None? && Without(self, s, history, Proposing)
    ensures Run(self, s, history).admin == s.admin && Run(self, s, history).pendingAdmin.None?
    decreases |history|
  {
    if history != [] {
      NextKeepsNominee(self, s, history[0]);
      NobodyNominated(self, Next(self, s, history[0]), history[1..]);
    }
  }

  /** After a cancelled transfer, and as long as nobody is proposed anew, the primary admin stays, and nobody
      can accept: not the old nominee either. */
  lemma CancelledStaysCancelled(self: Address, s: Storage, env: Env, caller: Address, history: seq<Invocation>,
      later: Env, a: Address)
    requires CancelAdminTransfer(s, env, caller).Ok?
    requires Without(self, CancelAdminTransfer(s, env, caller).value, history, Proposing)
    ensures var end := Run(self, CancelAdminTransfer(s, env, caller).value, history);
            end.admin == s.admin == Some(caller) && AcceptAdmin(end, later, a).Err?
  {
    NobodyNominated(self, CancelAdminTransfer(s, env, caller).value, history);
  }

  // ---- Pause and limits

  /** While creation is paused no escrow is opened, whatever else happens. */
  lemma {:induction false} PausedOpensNothing(self: Address, s: Storage, history: seq<Invocation>)
    requires s.admin.Some? && s.createPaused && BookOk(self, s)
    requires Without(self, s, history, Unpausing)
    ensures Run(self, s, history).escrows.Keys == s.escrows.Keys
    decreases |history|
  {
    if history != [] {
      if Succeeds(self, s, history[0]) { PausedStep(self, s, EnvOf(self, history[0]), history[0].call); }
      PausedOpensNothing(self, Next(self, s, history[0]), history[1..]);
    }
  }

  lemma PausedStep(self: Address, s: Storage, env: Env, c: Call)
    requires s.admin.Some? && s.createPaused && BookOk(self, s) && Invoke(s, env, c).Ok? && env.self == self
    requires !Is(c, Unpausing)
    ensures var s' := Invoke(s, env, c).value;
            s'.admin.Some? && s'.createPaused && BookOk(self, s') && s'.escrows.Keys == s.escrows.Keys
  {
    if IsSettlingCall(c) {
      var toSeller := SettlingCall(s, env, c);
    } else if !IsMoneyCall(c) {
      ConfigCall(s, env, c);
    }
  }

  /** The token is not accepted, and all its escrows are among those opened so far. */
  ghost predicate Unlisted(self: Address, s: Storage, token: Address, known: set<nat>) {
    && BookOk(self, s) && s.admin.Some? && !IsTokenAllowed(s, token)
    && forall id :: id in s.escrows && s.escrows[id].token == token ==> id in known
  }

  lemma {:induction false} UnlistedStaysUnlisted(self: Address, s: Storage, history: seq<Invocation>, token: Address,
      known: set<nat>)
    requires Unlisted(self, s, token, known) && Without(self, s, history, Listing(token))
    ensures Unlisted(self, Run(self, s, history), token, known)
    decreases |history|
  {
    if history != [] {
      if Succeeds(self, s, history[0]) {
        UnlistedStep(self, s, EnvOf(self, history[0]), history[0].call, token, known);
      }
      UnlistedStaysUnlisted(self, Next(self, s, history[0]), history[1..], token, known);
    }
  }

  lemma UnlistedStep(self: Address, s: Storage, env: Env, c: Call, token: Address, known: set<nat>)
    requires Unlisted(self, s, token, known) && !Is(c, Listing(token)) && env.self == self && Invoke(s, env, c).Ok?
    ensures Unlisted(self, Invoke(s, env, c).value, token, known)
  {
    if IsSettlingCall(c) {
      UnlistedSettles(self, s, env, c, token, known);
    } else if c.CDeposit? || c.CDispute? {
      UnlistedOpens(self, s, env, c, token, known);
    } else if !IsMoneyCall(c) {
      UnlistedSet(self, s, env, c, token, known);
    }
  }

  lemma UnlistedSettles(self: Address, s: Storage, env: Env, c: Call, token: Address, known: set<nat>)
    requires Unlisted(self, s, token, known) && IsSettlingCall(c) && Invoke(s, env, c).Ok?
    ensures Unlisted(self, Invoke(s, env, c).value, token, known)
  {
    var toSeller := SettlingCall(s, env, c);
    SettledStatus(s, env, c.id, toSeller);
  }

  lemma UnlistedSet(self: Address, s: Storage, env: Env, c: Call, token: Address, known: set<nat>)
    requires Unlisted(self, s, token, known) && !IsMoneyCall(c) && !Is(c, Listing(token))
    requires Invoke(s, env, c).Ok?
    ensures Unlisted(self, Invoke(s, env, c).value, token, known)
  {
    ConfigCall(s, env, c);
  }

  lemma UnlistedOpens(self: Address, s: Storage, env: Env, c: Call, token: Address, known: set<nat>)
    requires Unlisted(self, s, token, known) && (c.CDeposit? || c.CDispute?) && env.self == self
    requires Invoke(s, env, c).Ok?
    ensures Unlisted(self, Invoke(s, env, c).value, token, known)
  {
  }

  /** A token that was taken off the list gets no new escrow until an administrator adds it again. */
  lemma RemovedTokenTakesNothing(self: Address, s: Storage, env: Env, caller: Address, token: Address,
      history: seq<Invocation>)
    requires Reachable(self, s) && RemoveToken(s, env, caller, token).Ok?
    requires Without(self, RemoveToken(s, env, caller, token).value, history, Listing(token))
    ensures var end := Run(self, RemoveToken(s, env, caller, token).value, history);
            && (forall id :: id in end.escrows && end.escrows[id].token == token ==> id in s.escrows)
            && forall later: Env, buyer, seller, amount, orderId, timeout ::
                 Deposit(end, later, buyer, seller, token, amount, orderId, timeout).Err?
  {
    ReachableInv(self, s);
    UnlistedStaysUnlisted(self, RemoveToken(s, env, caller, token).value, history, token, s.escrows.Keys);
  }

  /** The limits are l, and every escrow after `from` keeps within them. */
  ghost predicate WithinLimits(s: Storage, from: nat, l: AmountLimits) {
    && s.limits == Some(l) && from <= s.lastEscrowId
    && forall id :: id in s.escrows && id > from ==> l.minAmount <= s.escrows[id].amount <= l.maxAmount
  }

  /** While the limits stay as they are, every escrow that is opened keeps within them. */
  lemma {:induction false} LimitsBind(self: Address, s: Storage, history: seq<Invocation>, from: nat, l: AmountLimits)
    requires Inv(self, s) && WithinLimits(s, from, l) && Without(self, s, history, Relimiting)
    ensures WithinLimits(Run(self, s, history), from, l)
    decreases |history|
  {
    if history != [] {
      var inv := history[0];
      if Succeeds(self, s, inv) {
        InvokeKeepsInv(self, s, EnvOf(self, inv), inv.call);
        LimitsStep(self, s, EnvOf(self, inv), inv.call, from, l);
      }
      LimitsBind(self, Next(self, s, inv), history[1..], from, l);
    }
  }

  lemma LimitsStep(self: Address, s: Storage, env: Env, c: Call, from: nat, l: AmountLimits)
    requires BookOk(self, s) && s.admin.Some? && WithinLimits(s, from, l) && !Is(c, Relimiting)
    requires env.self == self && Invoke(s, env, c).Ok?
    ensures WithinLimits(Invoke(s, env, c).value, from, l)
  {
    if IsSettlingCall(c) {
      var toSeller := SettlingCall(s, env, c);
      SettleAdvances(s, env, c.id, toSeller);
    } else if c.CDeposit? || c.CDispute? {
      OpeningWithinLimits(s, env, c, from, l);
    } else if !IsMoneyCall(c) {
      ConfigCall(s, env, c);
    }
  }

  lemma OpeningWithinLimits(s: Storage, env: Env, c: Call, from: nat, l: AmountLimits)
    requires WithinLimits(s, from, l) && (c.CDeposit? || c.CDispute?) && Invoke(s, env, c).Ok?
    ensures WithinLimits(Invoke(s, env, c).value, from, l)
  {
  }

  /** From the present on: what is opened before the limits change is within the limits of now. */
  lemma NewEscrowsKeepLimits(self: Address, s: Storage, history: seq<Invocation>, id: nat)
    requires Reachable(self, s) && s.limits.Some? && Without(self, s, history, Relimiting)
    requires id in Run(self, s, history).escrows && id !in s.escrows
    ensures s.limits.value.minAmount <= Run(self, s, history).escrows[id].amount <= s.limits.value.maxAmount
  {
    ReachableInv(self, s);
    LimitsBind(self, s, history, s.lastEscrowId, s.limits.value);
    RunKeepsInv(self, s, history);
  }
}
