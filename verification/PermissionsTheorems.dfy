/** Allowance accounting over every history of invocations. */
module PermissionsTheorems {
  import opened Common
  import opened Soroban
  import opened PermissionsSpec

  ghost predicate RecordOk(s: Storage, p: Pair) {
    p in s.permissions ==>
      && s.permissions[p].spent <= s.permissions[p].limitTotal
      && FitsI128(s.permissions[p].spent) && FitsI128(s.permissions[p].limitTotal)
  }

  lemma {:induction false} RunKeepsRecords(history: seq<Invocation>, p: Pair)
    ensures RecordOk(Run(history), p)
  {
    if history != [] {
      var earlier, inv := Run(history[..|history| - 1]), history[|history| - 1];
      RunKeepsRecords(history[..|history| - 1], p);
      if Invoke(earlier, inv).Ok? { InvokeOn(earlier, inv, p); }
    }
  }

  /** What one successful call does to the record of one pair. */
  lemma InvokeOn(s: Storage, inv: Invocation, p: Pair)
    requires Invoke(s, inv).Ok? && RecordOk(s, p)
    ensures var s' := Invoke(s, inv).value;
            && RecordOk(s', p)
            && (p in s.permissions ==> p in s'.permissions)
            && (p in s'.permissions && p !in s.permissions ==> inv.call.CGrant? && inv.call.pair == p)
            && (p in s'.permissions && inv.call.CGrant? && inv.call.pair == p ==> s'.permissions[p].spent == 0)
            && (p in s.permissions && !(inv.call.CGrant? && inv.call.pair == p) ==>
                  s'.permissions[p].spent == s.permissions[p].spent
                    + (if inv.call.CSpend? && inv.call.pair == p then inv.call.amount else 0))
            && (inv.call.CGrant? && inv.call.pair == p ==> p in s'.permissions)
            && (inv.call.CSpend? ==> inv.call.pair in s.permissions)
  {
    match inv.call
    case CGrant(_, _, _, _, _) =>
    case CSpend(_, _, _) =>
    case CExecuteDecrease(_) =>
    case _ =>
  }

  /** The spends a history let through for `pair` since its last successful grant. */
  ghost function SpentSinceGrant(history: seq<Invocation>, pair: Pair): int {
    if history == [] then 0
    else
      var earlier, inv := history[..|history| - 1], history[|history| - 1];
      if Invoke(Run(earlier), inv).Err? then SpentSinceGrant(earlier, pair)
      else match inv.call
        case CGrant(p, _, _, _, _) => if p == pair then 0 else SpentSinceGrant(earlier, pair)
        case CSpend(p, amount, _) => SpentSinceGrant(earlier, pair) + (if p == pair then amount else 0)
        case _ => SpentSinceGrant(earlier, pair)
  }

  /** `spent` is exactly what went through since the last grant and never exceeds the limit, across
      pause, resume, revoke, re-grant and decrements that outlive a re-grant; so the clamp of
      get_allowance_detail is never taken. */
  lemma {:induction false} AllowanceAccounting(history: seq<Invocation>, pair: Pair)
    ensures var s := Run(history);
            pair in s.permissions ==>
              && s.permissions[pair].spent == SpentSinceGrant(history, pair)
              && s.permissions[pair].spent <= s.permissions[pair].limitTotal
              && RemainingClamped(s.permissions[pair]) == s.permissions[pair].limitTotal - s.permissions[pair].spent
    ensures pair !in Run(history).permissions ==> SpentSinceGrant(history, pair) == 0
  {
    RunKeepsRecords(history, pair);
    if history != [] {
      var earlier, inv := history[..|history| - 1], history[|history| - 1];
      AllowanceAccounting(earlier, pair);
      RunKeepsRecords(earlier, pair);
      if Invoke(Run(earlier), inv).Ok? { InvokeOn(Run(earlier), inv, pair); }
    }
  }

  /** When no spend asks for a negative amount, what was spent lies between zero and the limit. */
  lemma SpentIsWithinLimit(history: seq<Invocation>, pair: Pair)
    requires forall i :: 0 <= i < |history| && history[i].call.CSpend? ==> history[i].call.amount >= 0
    requires pair in Run(history).permissions
    ensures 0 <= Run(history).permissions[pair].spent <= Run(history).permissions[pair].limitTotal
  {
    AllowanceAccounting(history, pair);
    SpentNonneg(history, pair);
  }

  lemma {:induction false} SpentNonneg(history: seq<Invocation>, pair: Pair)
    requires forall i :: 0 <= i < |history| && history[i].call.CSpend? ==> history[i].call.amount >= 0
    ensures SpentSinceGrant(history, pair) >= 0
  {
    if history != [] {
      SpentNonneg(history[..|history| - 1], pair);
    }
  }

  /** A successful spend takes exactly its amount off what remains: the allowance shrinks or stays
      exactly when the amount is not negative. */
  lemma SpendTakesItsAmount(history: seq<Invocation>, env: Env, pair: Pair, amount: int, merchant: Address)
    requires ExecuteSpend(Run(history), env, pair, amount, merchant).Ok?
    ensures pair in Run(history).permissions
    ensures var before := Run(history).permissions[pair];
            var after := ExecuteSpend(Run(history), env, pair, amount, merchant).value.permissions[pair];
            && RemainingClamped(after) == RemainingClamped(before) - amount
            && (RemainingClamped(after) <= RemainingClamped(before) <==> amount >= 0)
            && after == before.(spent := after.spent)
  {
    RunKeepsRecords(history, pair);
  }

  /** What a permission that is not active needs to spend again. */
  predicate Revives(c: Call, pair: Pair) {
    (c.CGrant? || c.CResume?) && c.pair == pair
  }

  lemma RunOneMore(history: seq<Invocation>, inv: Invocation)
    ensures Run(history + [inv]) == Next(Run(history), inv)
  {
    assert (history + [inv])[..|history|] == history;
  }

  lemma StoppedStep(s: Storage, inv: Invocation, pair: Pair)
    requires pair in s.permissions && s.permissions[pair].status != Active
    ensures pair in Next(s, inv).permissions
    ensures Next(s, inv).permissions[pair].status == Active <==> Revives(inv.call, pair) && Invoke(s, inv).Ok?
    ensures !(Revives(inv.call, pair) && Invoke(s, inv).Ok?) ==>
              Next(s, inv).permissions[pair].spent == s.permissions[pair].spent
  {
    match inv.call
    case CGrant(_, _, _, _, _) =>
    case CSpend(_, _, _) =>
    case CExecuteDecrease(_) =>
    case CResume(_) =>
    case _ =>
  }

  predicate Stopped(history: seq<Invocation>, pair: Pair) {
    pair in Run(history).permissions && Run(history).permissions[pair].status != Active
  }

  /** The i-th of the further calls grants or resumes the permission. */
  predicate RevivedBy(history: seq<Invocation>, more: seq<Invocation>, i: nat, pair: Pair)
    requires i < |more|
  {
    Revives(more[i].call, pair) && Invoke(Run(history + more[..i]), more[i]).Ok?
  }

  lemma RunNext(history: seq<Invocation>, more: seq<Invocation>, i: nat)
    requires i < |more|
    ensures Run(history + more[..i + 1]) == Next(Run(history + more[..i]), more[i])
  {
    assert history + more[..i + 1] == history + more[..i] + [more[i]];
    RunOneMore(history + more[..i], more[i]);
  }

  /** None of the first n further calls does. */
  ghost predicate NotRevived(history: seq<Invocation>, more: seq<Invocation>, n: nat, pair: Pair)
    requires n <= |more|
  {
    forall i :: 0 <= i < n ==> !RevivedBy(history, more, i, pair)
  }

  /** Stopped after any number of the further calls. */
  ghost predicate StaysStopped(history: seq<Invocation>, more: seq<Invocation>, pair: Pair) {
    forall n :: 0 <= n <= |more| ==> Stopped(history + more[..n], pair)
  }

  lemma {:induction false} StoppedUpTo(history: seq<Invocation>, more: seq<Invocation>, n: nat, pair: Pair)
    requires Stopped(history, pair) && n <= |more| && NotRevived(history, more, n, pair)
    ensures Stopped(history + more[..n], pair)
    ensures Run(history + more[..n]).permissions[pair].spent == Run(history).permissions[pair].spent
  {
    if n == 0 {
      assert history + more[..0] == history;
    } else {
      StoppedUpTo(history, more, n - 1, pair);
      RunNext(history, more, n - 1);
      assert !RevivedBy(history, more, n - 1, pair);
      StoppedStep(Run(history + more[..n - 1]), more[n - 1], pair);
    }
  }

  lemma RevivedIsActive(history: seq<Invocation>, more: seq<Invocation>, i: nat, pair: Pair)
    requires i < |more| && RevivedBy(history, more, i, pair) && Stopped(history + more[..i], pair)
    ensures !Stopped(history + more[..i + 1], pair)
  {
    StoppedStep(Run(history + more[..i]), more[i], pair);
    RunNext(history, more, i);
  }

  /** A paused or revoked permission stays stopped through whatever else happens exactly when no call in it
      succeeds in granting or resuming it, and then nothing is spent under it. */
  lemma StoppedExactlyUntilRevived(history: seq<Invocation>, more: seq<Invocation>, pair: Pair)
    requires Stopped(history, pair)
    ensures StaysStopped(history, more, pair) <==> NotRevived(history, more, |more|, pair)
    ensures NotRevived(history, more, |more|, pair) ==>
              && pair in Run(history + more).permissions
              && Run(history + more).permissions[pair].spent == Run(history).permissions[pair].spent
  {
    assert more[..|more|] == more;
    if NotRevived(history, more, |more|, pair) {
      forall n | 0 <= n <= |more| ensures Stopped(history + more[..n], pair) { StoppedUpTo(history, more, n, pair); }
      StoppedUpTo(history, more, |more|, pair);
    } else {
      var i :| 0 <= i < |more| && RevivedBy(history, more, i, pair);
      if Stopped(history + more[..i], pair) { RevivedIsActive(history, more, i, pair); }
      assert !Stopped(history + more[..i], pair) || !Stopped(history + more[..i + 1], pair);
    }
  }

  /** Resume brings back any permission that is not active, a revoked one included; on the terms of the
      last grant, and with what was already spent still counted. */
  lemma ResumeAcceptsRevoked(history: seq<Invocation>, env: Env, pair: Pair)
    ensures var before := Run(history);
            var after := Run(history + [Invocation(env, CResume(pair))]);
            if pair in before.permissions && before.permissions[pair].status != Active then
              pair in after.permissions && after.permissions[pair] == before.permissions[pair].(status := Active)
            else after == before
  {
    RunOneMore(history, Invocation(env, CResume(pair)));
  }

  // ---- Decrements

  /** The i-th call of the history went through. */
  predicate Happened(history: seq<Invocation>, i: nat)
    requires i < |history|
  {
    Invoke(Run(history[..i]), history[i]).Ok?
  }

  /** The i-th call queued this decrement, to be due at that time. */
  predicate Queued(history: seq<Invocation>, i: nat, pair: Pair, due: PendingDecrement)
    requires i < |history|
  {
    Happened(history, i) && history[i].call == CDecrease(pair, due.amount)
        && history[i].env.timestamp + TIME_LOCK == due.executionTime
  }

  /** A decrement waiting in storage was queued by an earlier call, one time lock before its due time. */
  lemma {:induction false} PendingWasQueued(history: seq<Invocation>, pair: Pair) returns (i: nat)
    requires pair in Run(history).pending
    ensures i < |history| && Queued(history, i, pair, Run(history).pending[pair])
  {
    var n := |history| - 1;
    var earlier := history[..n];
    if pair in Run(earlier).pending && Run(earlier).pending[pair] == Run(history).pending[pair] {
      i := PendingWasQueued(earlier, pair);
      assert history[..i] == earlier[..i];
    } else {
      i := n;
    }
  }

  /** Without a re-grant a limit changes only by a decrement that an earlier call queued for that pair at
      least a day before, and by exactly its amount; it rises exactly when that amount is negative. */
  lemma LimitMovesOnlyAfterTimeLock(history: seq<Invocation>, inv: Invocation, pair: Pair)
    requires pair in Run(history).permissions
    requires !(inv.call.CGrant? && inv.call.pair == pair)
    ensures pair in Next(Run(history), inv).permissions
    ensures var before := Run(history).permissions[pair].limitTotal;
            var after := Next(Run(history), inv).permissions[pair].limitTotal;
            && (after != before ==>
                  && inv.call == CExecuteDecrease(pair)
                  && exists i: nat, due ::
                       && i < |history| && Queued(history, i, pair, due) && due.amount == before - after
                       && history[i].env.timestamp + TIME_LOCK <= inv.env.timestamp)
            && (after > before <==>
                  && inv.call == CExecuteDecrease(pair) && Invoke(Run(history), inv).Ok?
                  && Run(history).pending[pair].amount < 0)
  {
    var s := Run(history);
    if Invoke(s, inv).Ok? {
      LimitOn(s, inv, pair);
      if inv.call == CExecuteDecrease(pair) {
        var i := PendingWasQueued(history, pair);
        assert Queued(history, i, pair, s.pending[pair]);
        ExecutedWhenDue(s, inv, pair);
      }
    }
  }

  lemma ExecutedWhenDue(s: Storage, inv: Invocation, pair: Pair)
    requires inv.call == CExecuteDecrease(pair) && Invoke(s, inv).Ok?
    ensures pair in s.pending && s.pending[pair].executionTime <= inv.env.timestamp
  {
  }

  /** The total of the last successful grant. */
  ghost function GrantedTotal(history: seq<Invocation>, pair: Pair): int {
    if history == [] then 0
    else
      var earlier, inv := history[..|history| - 1], history[|history| - 1];
      if Invoke(Run(earlier), inv).Ok? && inv.call.CGrant? && inv.call.pair == pair then inv.call.limitTotal
      else GrantedTotal(earlier, pair)
  }

  /** The decrements executed since then. */
  ghost function DecreasedSinceGrant(history: seq<Invocation>, pair: Pair): int {
    if history == [] then 0
    else
      var earlier, inv := history[..|history| - 1], history[|history| - 1];
      if Invoke(Run(earlier), inv).Err? then DecreasedSinceGrant(earlier, pair)
      else if inv.call.CGrant? && inv.call.pair == pair then 0
      else DecreasedSinceGrant(earlier, pair)
           + if inv.call == CExecuteDecrease(pair) then Run(earlier).pending[pair].amount else 0
  }

  /** What one successful call does to the limit of one pair. */
  lemma LimitOn(s: Storage, inv: Invocation, p: Pair)
    requires Invoke(s, inv).Ok? && !(inv.call.CGrant? && inv.call.pair == p)
    ensures var s' := Invoke(s, inv).value;
            && (p in s'.permissions <==> p in s.permissions)
            && (inv.call == CExecuteDecrease(p) ==> p in s.pending)
            && (p in s.permissions ==>
                  s'.permissions[p].limitTotal
                    == s.permissions[p].limitTotal - if inv.call == CExecuteDecrease(p) then s.pending[p].amount else 0)
  {
    match inv.call
    case CSpend(_, _, _) =>
    case CExecuteDecrease(_) =>
    case _ =>
  }

  /** The limit is the last granted total less the decrements executed since. */
  lemma {:induction false} LimitAccounting(history: seq<Invocation>, pair: Pair)
    requires pair in Run(history).permissions
    ensures Run(history).permissions[pair].limitTotal
              == GrantedTotal(history, pair) - DecreasedSinceGrant(history, pair)
  {
    var earlier, inv := history[..|history| - 1], history[|history| - 1];
    if Invoke(Run(earlier), inv).Err? {
      LimitAccounting(earlier, pair);
    } else if !(inv.call.CGrant? && inv.call.pair == pair) {
      LimitOn(Run(earlier), inv, pair);
      LimitAccounting(earlier, pair);
    }
  }

  /** What becomes of a decrement. */
  datatype Stage = Queueing | Applying | Dropping

  /** In storage s the call takes a decrement of that amount for the pair to that stage. */
  predicate Takes(s: Storage, inv: Invocation, pair: Pair, amount: int, stage: Stage) {
    && Invoke(s, inv).Ok?
    && match stage
       case Queueing => inv.call == CDecrease(pair, amount)
       case Applying => inv.call == CExecuteDecrease(pair) && Waits(s, pair, amount)
       case Dropping => inv.call == CRevoke(pair) && Waits(s, pair, amount)
  }

  predicate Waits(s: Storage, pair: Pair, amount: int) {
    pair in s.pending && s.pending[pair].amount == amount
  }

  ghost function Times(history: seq<Invocation>, pair: Pair, amount: int, stage: Stage): nat {
    if history == [] then 0
    else
      var earlier, inv := history[..|history| - 1], history[|history| - 1];
      Times(earlier, pair, amount, stage) + if Takes(Run(earlier), inv, pair, amount, stage) then 1 else 0
  }

  lemma DecrementStep(s: Storage, inv: Invocation, pair: Pair, amount: int)
    ensures (if Waits(Next(s, inv), pair, amount) then 1 else 0) ==
              (if Waits(s, pair, amount) then 1 else 0)
              + (if Takes(s, inv, pair, amount, Queueing) then 1 else 0)
              - (if Takes(s, inv, pair, amount, Applying) then 1 else 0)
              - (if Takes(s, inv, pair, amount, Dropping) then 1 else 0)
  {
    match inv.call
    case CDecrease(_, _) =>
    case CExecuteDecrease(_) =>
    case CRevoke(_) =>
    case CSpend(_, _, _) =>
    case _ =>
  }

  /** Every queued decrement is applied at most once: of each amount, as many were queued as were applied,
      dropped by a revocation, or still wait. */
  lemma {:induction false} DecrementsAreConserved(history: seq<Invocation>, pair: Pair, amount: int)
    ensures Times(history, pair, amount, Queueing) ==
              Times(history, pair, amount, Applying) + Times(history, pair, amount, Dropping)
              + if Waits(Run(history), pair, amount) then 1 else 0
  {
    if history != [] {
      DecrementsAreConserved(history[..|history| - 1], pair, amount);
      DecrementStep(Run(history[..|history| - 1]), history[|history| - 1], pair, amount);
    }
  }

  // ---- The administrator

  lemma AdminStep(s: Storage, inv: Invocation)
    ensures s.admin.Some? ==> Next(s, inv).admin == s.admin
    ensures Next(s, inv).grantsPaused != s.grantsPaused ==>
              s.admin.Some? && inv.call == CSetGrantsPaused(s.admin.value, !s.grantsPaused)
    ensures Next(s, inv).allowSelf && !s.allowSelf ==> s.admin.Some? && inv.call == CSetAllowSelf(s.admin.value, true)
  {
    match inv.call
    case CSetGrantsPaused(_, _) =>
    case CSetAllowSelf(_, _) =>
    case CSetAdmin(_) =>
    case _ =>
  }

  /** There is one administrator for good. */
  lemma {:induction false} AdminIsForever(history: seq<Invocation>, more: seq<Invocation>)
    requires Run(history).admin.Some?
    ensures Run(history + more).admin == Run(history).admin
    decreases |more|
  {
    if more == [] {
      assert history + more == history;
    } else {
      var fewer, last := more[..|more| - 1], more[|more| - 1];
      AdminIsForever(history, fewer);
      assert history + more == history + fewer + [last];
      RunOneMore(history + fewer, last);
      AdminStep(Run(history + fewer), last);
    }
  }

  lemma {:induction false} PausedHasAdmin(history: seq<Invocation>)
    ensures Run(history).grantsPaused || Run(history).allowSelf ==> Run(history).admin.Some?
  {
    if history != [] {
      PausedHasAdmin(history[..|history| - 1]);
      AdminStep(Run(history[..|history| - 1]), history[|history| - 1]);
    }
  }

  /** Between a pause and an unpause by the one administrator no grant succeeds, whatever else happens. */
  lemma {:induction false} PausedGrantsNothing(history: seq<Invocation>, more: seq<Invocation>, grant: Invocation)
    requires Run(history).grantsPaused && grant.call.CGrant?
    requires Run(history).admin.Some? ==>
               forall i :: 0 <= i < |more| ==> more[i].call != CSetGrantsPaused(Run(history).admin.value, false)
    ensures Run(history + more).grantsPaused && Invoke(Run(history + more), grant) == Err(GrantsPaused)
    decreases |more|
  {
    PausedHasAdmin(history);
    if more == [] {
      assert history + more == history;
    } else {
      var fewer, last := more[..|more| - 1], more[|more| - 1];
      PausedGrantsNothing(history, fewer, grant);
      AdminIsForever(history, fewer);
      assert history + more == history + fewer + [last];
      RunOneMore(history + fewer, last);
      AdminStep(Run(history + fewer), last);
    }
  }

  lemma SelfStep(s: Storage, inv: Invocation, a: Address)
    requires (a, a) in Next(s, inv).permissions && (a, a) !in s.permissions
    ensures s.allowSelf
  {
    match inv.call
    case CGrant(_, _, _, _, _) =>
    case CSpend(_, _, _) =>
    case CExecuteDecrease(_) =>
    case _ =>
  }

  /** The i-th call is the administrator allowing self-delegation. */
  predicate AllowsSelf(history: seq<Invocation>, i: nat)
    requires i < |history|
  {
    Happened(history, i) && history[i].call.CSetAllowSelf? && history[i].call.allow
  }

  lemma {:induction false} AllowedByAdmin(history: seq<Invocation>) returns (i: nat)
    requires Run(history).allowSelf
    ensures i < |history| && AllowsSelf(history, i)
  {
    var n := |history| - 1;
    if Run(history[..n]).allowSelf {
      i := AllowedByAdmin(history[..n]);
      assert history[..n][..i] == history[..i];
    } else {
      AdminStep(Run(history[..n]), history[n]);
      i := n;
    }
  }

  /** Nobody holds a permission from itself unless the administrator allowed that at some time before. */
  lemma {:induction false} SelfDelegationNeedsAdmin(history: seq<Invocation>, a: Address) returns (i: nat)
    requires (a, a) in Run(history).permissions
    ensures i < |history| && AllowsSelf(history, i)
  {
    var n := |history| - 1;
    if (a, a) in Run(history[..n]).permissions {
      i := SelfDelegationNeedsAdmin(history[..n], a);
    } else {
      SelfStep(Run(history[..n]), history[n], a);
      i := AllowedByAdmin(history[..n]);
    }
    assert history[..n][..i] == history[..i];
  }

  // ---- Histories that surprise

  /** A grant of ten, one a time, to somebody else. */
  function GrantOfTen(pair: Pair): Invocation {
    Invocation(Env(0, 0), CGrant(pair, 10, 1, [], 1))
  }

  lemma AfterGrantOfTen(pair: Pair)
    requires pair.0 != pair.1
    ensures Run([GrantOfTen(pair)]) ==
              Deployed().(permissions := map[pair := PermissionRecord(10, 0, 1, [], Active, 1, 0)])
  {
    RunOneMore([], GrantOfTen(pair));
    assert [] + [GrantOfTen(pair)] == [GrantOfTen(pair)];
  }

  /** A spend of minus seven goes through and leaves seventeen of ten. */
  lemma NegativeSpendRaisesAllowance(pair: Pair, merchant: Address) returns (history: seq<Invocation>)
    requires pair.0 != pair.1
    ensures |history| == 2 && history[0] == GrantOfTen(pair) && history[1].call == CSpend(pair, -7, merchant)
    ensures pair in Run(history).permissions && RemainingClamped(Run(history).permissions[pair]) == 17
  {
    AfterGrantOfTen(pair);
    var spend := Invocation(Env(0, 0), CSpend(pair, -7, merchant));
    history := [GrantOfTen(pair)] + [spend];
    RunOneMore([GrantOfTen(pair)], spend);
  }

  /** A queued decrement of minus ninety raises the limit from ten to a hundred after a day. */
  lemma NegativeDecrementRaisesLimit(pair: Pair) returns (history: seq<Invocation>)
    requires pair.0 != pair.1
    ensures |history| == 3 && history[0] == GrantOfTen(pair) && history[1].call == CDecrease(pair, -90)
    ensures pair in Run(history).permissions && Run(history).permissions[pair].limitTotal == 100
  {
    AfterGrantOfTen(pair);
    var queue := Invocation(Env(0, 0), CDecrease(pair, -90));
    var execute := Invocation(Env(0, TIME_LOCK), CExecuteDecrease(pair));
    RunOneMore([GrantOfTen(pair)], queue);
    RunOneMore([GrantOfTen(pair)] + [queue], execute);
    history := [GrantOfTen(pair)] + [queue] + [execute];
  }

  /** A revoked permission is resumed and spent under. */
  lemma RevokedSpendsAgain(pair: Pair, merchant: Address) returns (history: seq<Invocation>)
    requires pair.0 != pair.1
    ensures |history| == 4 && history[0] == GrantOfTen(pair) && history[1].call == CRevoke(pair)
    ensures history[2].call == CResume(pair) && history[3].call == CSpend(pair, 1, merchant)
    ensures pair in Run(history[..2]).permissions && Run(history[..2]).permissions[pair].status == Revoked
    ensures pair in Run(history).permissions && Run(history).permissions[pair].spent == 1
  {
    AfterGrantOfTen(pair);
    var revoke, resume := Invocation(Env(0, 0), CRevoke(pair)), Invocation(Env(0, 0), CResume(pair));
    var spend := Invocation(Env(0, 0), CSpend(pair, 1, merchant));
    var revoked := [GrantOfTen(pair)] + [revoke];
    RunOneMore([GrantOfTen(pair)], revoke);
    RunOneMore(revoked, resume);
    RunOneMore(revoked + [resume], spend);
    history := revoked + [resume] + [spend];
    assert history[..2] == revoked;
  }

  /** The dry run is right: it says yes exactly when the spend would go through, up to an overflow of
      the spent total itself, and names what would remain. */
  lemma PreviewIsExact(history: seq<Invocation>, env: Env, pair: Pair, amount: int, merchant: Address)
    ensures var s := Run(history);
            var preview := PreviewSpend(s, env, pair, amount, merchant);
            var spend := ExecuteSpend(s, env, pair, amount, merchant);
            && (spend.Ok? <==> preview.Some? && preview.value.allowed && FitsI128(s.permissions[pair].spent + amount))
            && (spend.Ok? ==> preview.value.remainingAfter == RemainingClamped(spend.value.permissions[pair]))
            && (amount >= 0 ==> (spend.Ok? <==> preview.Some? && preview.value.allowed))
            && (preview.Some? && !preview.value.allowed ==>
                  preview.value.remainingAfter
                    == if pair in s.permissions then RemainingClamped(s.permissions[pair]) else 0)
  {
    RunKeepsRecords(history, pair);
  }
}
