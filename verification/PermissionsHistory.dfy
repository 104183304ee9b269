/** What may be spent under a permission, and what its record says of the past: its terms are those of the last
    grant, its status is what the last call on it made of it, and an error names something that is so. */
module PermissionsHistory {
  import opened Common
  import opened Soroban
  import opened PermissionsSpec
  import opened PermissionsTheorems

  // ---- Exactly which calls go through

  /** Every one of the merchants counts, and so does anyone if none are named. */
  predicate Welcomes(rec: PermissionRecord, merchant: Address) {
    rec.allowedMerchants == [] || merchant in rec.allowedMerchants
  }

  /** After any history, exactly when a spend goes through. The limits alone decide for an amount that is not
      negative; a negative one must also keep the sums inside an i128. */
  lemma SpendExactlyWhen(history: seq<Invocation>, env: Env, pair: Pair, amount: int, merchant: Address)
    ensures var s := Run(history);
            ExecuteSpend(s, env, pair, amount, merchant).Ok? <==>
              && pair in s.permissions
              && var rec := s.permissions[pair];
                 && rec.status == Active && env.sequence < rec.expiresAtLedger
                 && amount <= rec.limitPerTx
                 && amount <= rec.limitTotal - rec.spent && FitsI128(rec.limitTotal - rec.spent)
                 && Welcomes(rec, merchant)
                 && (amount < 0 ==> FitsI128(rec.spent + amount) && FitsI128(rec.limitTotal - rec.spent - amount))
  {
    RunKeepsRecords(history, pair);
  }

  /** What must be so for any other call to succeed. */
  predicate Admitted(s: Storage, env: Env, c: Call) {
    match c
    case CGrant(pair, total, perTx, _, ttl) =>
      && !s.grantsPaused && (pair.0 != pair.1 || s.allowSelf)
      && 1 <= perTx <= total <= I128_MAX && env.sequence + ttl <= U32_MAX
    case CRevoke(pair) => pair in s.permissions
    case CPause(pair) => pair in s.permissions && s.permissions[pair].status == Active
    case CResume(pair) => pair in s.permissions && s.permissions[pair].status != Active
    case CDecrease(pair, _) =>
      pair in s.permissions && pair !in s.pending && env.timestamp + TIME_LOCK <= U64_MAX
    case CExecuteDecrease(pair) =>
      && pair in s.permissions && pair in s.pending && s.pending[pair].executionTime <= env.timestamp
      && s.permissions[pair].spent <= s.permissions[pair].limitTotal - s.pending[pair].amount <= I128_MAX
    case CSetAdmin(_) => s.admin.None?
    case CSetGrantsPaused(admin, _) => s.admin == Some(admin)
    case CSetAllowSelf(admin, _) => s.admin == Some(admin)
    case CSpend(_, _, _) => false
  }

  lemma SucceedsExactlyWhen(history: seq<Invocation>, inv: Invocation)
    requires !inv.call.CSpend?
    ensures Invoke(Run(history), inv).Ok? <==> Admitted(Run(history), inv.env, inv.call)
  {
    if inv.call.CExecuteDecrease? { RunKeepsRecords(history, inv.call.pair); }
  }

  predicate HasPair(c: Call) { !c.CSetAdmin? && !c.CSetGrantsPaused? && !c.CSetAllowSelf? }

  /** A call on one pair leaves every other pair's record and decrement alone, and the switches with them; a call
      on the switches leaves all pairs alone. */
  lemma OthersAreLeftAlone(s: Storage, inv: Invocation, other: Pair)
    requires HasPair(inv.call) ==> inv.call.pair != other
    ensures var s' := Next(s, inv);
            && (other in s'.permissions <==> other in s.permissions)
            && (other in s.permissions ==> s'.permissions[other] == s.permissions[other])
            && (other in s'.pending <==> other in s.pending)
            && (other in s.pending ==> s'.pending[other] == s.pending[other])
            && (HasPair(inv.call) ==>
                  s'.admin == s.admin && s'.grantsPaused == s.grantsPaused && s'.allowSelf == s.allowSelf)
  {
    match inv.call
    case CSpend(_, _, _) =>
    case CExecuteDecrease(_) =>
    case _ =>
  }

  // ---- What the last call on a topic left

  datatype Topic = Terms(pair: Pair) | State(pair: Pair) | Admin | GrantsSwitch | SelfSwitch

  predicate On(c: Call, topic: Topic) {
    match topic
    case Terms(p) => c.CGrant? && c.pair == p
    case State(p) => (c.CGrant? || c.CRevoke? || c.CPause? || c.CResume?) && c.pair == p
    case Admin => c.CSetAdmin?
    case GrantsSwitch => c.CSetGrantsPaused?
    case SelfSwitch => c.CSetAllowSelf?
  }

  /** The last call on the topic that succeeded. */
  function LastOn(history: seq<Invocation>, topic: Topic): (last: Option<Invocation>)
    ensures last.Some? ==> On(last.value.call, topic)
  {
    if history == [] then None
    else
      var earlier, inv := history[..|history| - 1], history[|history| - 1];
      if On(inv.call, topic) && Invoke(Run(earlier), inv).Ok? then Some(inv) else LastOn(earlier, topic)
  }

  predicate Shows(s: Storage, topic: Topic, last: Option<Invocation>)
    requires last.Some? ==> On(last.value.call, topic)
  {
    match topic
    case Terms(p) => (p in s.permissions <==> last.Some?) && (last.Some? ==> HasTerms(s.permissions[p], last.value))
    case State(p) =>
      (p in s.permissions <==> last.Some?) && (last.Some? ==> HasStatus(s.permissions[p], last.value.call))
    case Admin => s.admin == if last.None? then None else Some(last.value.call.admin)
    case GrantsSwitch => s.grantsPaused <==> last.Some? && last.value.call.paused
    case SelfSwitch => s.allowSelf <==> last.Some? && last.value.call.allow
  }

  /** The record carries the terms of that grant, and runs out as many ledgers after it as it asked for. */
  predicate HasTerms(rec: PermissionRecord, grant: Invocation)
    requires grant.call.CGrant?
  {
    && rec.limitPerTx == grant.call.limitPerTx && rec.allowedMerchants == grant.call.merchants
    && rec.expiresAtLedger == grant.env.sequence + grant.call.ttl && rec.createdAt == grant.env.timestamp
  }

  predicate HasStatus(rec: PermissionRecord, c: Call) {
    match c
    case CPause(_) => rec.status == Paused
    case CRevoke(_) => rec.status == Revoked
    case _ => rec.status == Active
  }

  lemma StepShows(s: Storage, inv: Invocation, topic: Topic, last: Option<Invocation>)
    requires Invoke(s, inv).Ok? && (last.Some? ==> On(last.value.call, topic)) && Shows(s, topic, last)
    ensures Shows(Invoke(s, inv).value, topic, if On(inv.call, topic) then Some(inv) else last)
  {
    if On(inv.call, topic) { OnTopicSets(s, inv, topic); } else { OffTopicKeeps(s, inv, topic, last); }
  }

  lemma OnTopicSets(s: Storage, inv: Invocation, topic: Topic)
    requires Invoke(s, inv).Ok? && On(inv.call, topic)
    ensures Shows(Invoke(s, inv).value, topic, Some(inv))
  {
  }

  lemma OffTopicKeeps(s: Storage, inv: Invocation, topic: Topic, last: Option<Invocation>)
    requires Invoke(s, inv).Ok? && !On(inv.call, topic) && (last.Some? ==> On(last.value.call, topic))
    requires Shows(s, topic, last)
    ensures Shows(Invoke(s, inv).value, topic, last)
  {
    match inv.call
    case CSpend(_, _, _) =>
    case CExecuteDecrease(_) =>
    case _ =>
  }

  /** After any history a pair has a record exactly if it was ever granted one, on the terms of its last grant
      but for total and spent; its status is Active after a grant or a resume, Paused after a pause, Revoked after
      a revocation; and administrator and switches are as last set. */
  lemma {:induction false} RecordIsAsLastSet(history: seq<Invocation>, topic: Topic)
    ensures Shows(Run(history), topic, LastOn(history, topic))
  {
    if history != [] {
      var earlier, inv := history[..|history| - 1], history[|history| - 1];
      RecordIsAsLastSet(earlier, topic);
      if Invoke(Run(earlier), inv).Ok? { StepShows(Run(earlier), inv, topic, LastOn(earlier, topic)); }
    }
  }

  /** No stored status is ever Expired: expiry shows only in the ledger sequence. */
  lemma NeverStoredExpired(history: seq<Invocation>, pair: Pair)
    requires pair in Run(history).permissions
    ensures Run(history).permissions[pair].status != Expired
  {
    RecordIsAsLastSet(history, State(pair));
  }

  // ---- Reasons

  predicate IsSo(s: Storage, env: Env, c: Call, e: PermissionError) {
    match e
    case NotFound => HasPair(c) && c.pair !in s.permissions
    case GrantsPaused => c.CGrant? && s.grantsPaused
    case SelfDelegationNotAllowed => c.CGrant? && c.pair.0 == c.pair.1 && !s.allowSelf
    case InvalidParam => c.CGrant? && !(1 <= c.limitPerTx <= c.limitTotal)
    case AlreadyPaused => c.CPause? && c.pair in s.permissions && s.permissions[c.pair].status != Active
    case AlreadyActive => c.CResume? && c.pair in s.permissions && s.permissions[c.pair].status == Active
    case PermissionPaused => c.CSpend? && c.pair in s.permissions && s.permissions[c.pair].status == Paused
    case ExpiredError => c.CSpend? && c.pair in s.permissions && env.sequence >= s.permissions[c.pair].expiresAtLedger
    case ExceedsPerTxLimit => c.CSpend? && c.pair in s.permissions && c.amount > s.permissions[c.pair].limitPerTx
    case ExceedsTotalLimit =>
      c.CSpend? && c.pair in s.permissions && c.amount > s.permissions[c.pair].limitTotal - s.permissions[c.pair].spent
    case MerchantNotAllowed => c.CSpend? && c.pair in s.permissions && !Welcomes(s.permissions[c.pair], c.merchant)
    case Unauthorized =>
      if c.CSpend? then c.pair in s.permissions && s.permissions[c.pair].status == Revoked
      else !HasPair(c) && s.admin.Some? && s.admin != Some(c.admin)
    case Trap => !c.CRevoke? && !c.CPause? && !c.CResume? && (c.CSpend? ==> c.amount < 0 || Huge(s, c.pair))
  }

  /** The allowance does not fit an i128, which takes spends of negative amounts. */
  predicate Huge(s: Storage, pair: Pair) {
    pair in s.permissions && !FitsI128(s.permissions[pair].limitTotal - s.permissions[pair].spent)
  }

  /** No call fails for a reason that is not so. */
  lemma ErrorsAreSo(history: seq<Invocation>, inv: Invocation)
    requires Invoke(Run(history), inv).Err?
    ensures IsSo(Run(history), inv.env, inv.call, Invoke(Run(history), inv).error)
  {
    if inv.call.CSpend? {
      RunKeepsRecords(history, inv.call.pair);
      if inv.call.pair in Run(history).permissions { NeverStoredExpired(history, inv.call.pair); }
    }
  }
}
