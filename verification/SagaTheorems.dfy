/** What the saga protocol guarantees, read off the history of saves that any interleaving leaves. */
module SagaTheorems {
  import opened Common
  import opened SagaMachine
  import opened SagaInvariant

  /** States some interleaving reaches from an empty store. */
  ghost predicate Reachable<C(!new)>(cfg: Config, s: State<C>) {
    cfg.Valid() && exists now: int, trace: seq<Event<C>> :: Replay(cfg, Start<C>(now), trace) == Some(s)
  }

  lemma ReachableInv<C(!new)>(cfg: Config, s: State<C>)
    requires Reachable(cfg, s)
    ensures Inv(cfg, s)
  {
    var now: int, trace: seq<Event<C>> :| Replay(cfg, Start<C>(now), trace) == Some(s);
    ReplayKeepsInv(cfg, Start<C>(now), trace);
  }

  // ---- Reading a legal history

  lemma {:induction false} LegalPrefix<C>(cfg: Config, origin: SagaRecord<C>, saves: seq<Save<C>>, n: nat)
    requires LegalHistory(cfg, origin, saves) && n <= |saves|
    ensures LegalHistory(cfg, origin, saves[..n])
    decreases |saves|
  {
    if n == |saves| {
      assert saves[..n] == saves;
    } else {
      LegalPrefix(cfg, origin, saves[..|saves| - 1], n);
      assert saves[..|saves| - 1][..n] == saves[..n];
    }
  }

  lemma LegalAt<C>(cfg: Config, origin: SagaRecord<C>, saves: seq<Save<C>>, j: nat)
    requires LegalHistory(cfg, origin, saves) && j < |saves|
    ensures LegalHistory(cfg, origin, saves[..j])
    ensures LegalSave(cfg, Latest(origin, saves[..j]), saves[j])
    ensures if j == 0 then !saves[j].kind.Settle? else Adjacent(saves[j - 1], saves[j])
  {
    LegalPrefix(cfg, origin, saves, j + 1);
    assert saves[..j + 1][..j] == saves[..j];
  }

  lemma {:induction false} LatestWellFormed<C>(cfg: Config, origin: SagaRecord<C>, saves: seq<Save<C>>)
    requires cfg.Valid() && LegalHistory(cfg, origin, saves)
    ensures WellFormed(cfg, Latest(origin, saves))
    decreases |saves|
  {
    if saves == [] {
      NextStepIs(cfg, origin);
    } else {
      var earlier := saves[..|saves| - 1];
      LatestWellFormed(cfg, origin, earlier);
      LegalSaveKeepsWellFormed(cfg, Latest(origin, earlier), saves[|saves| - 1]);
    }
  }

  lemma {:induction false} TimesAscend<C>(cfg: Config, origin: SagaRecord<C>, saves: seq<Save<C>>, i: nat, j: nat)
    requires LegalHistory(cfg, origin, saves) && i <= j < |saves|
    ensures saves[i].at <= saves[j].at
    decreases j
  {
    if i < j {
      LegalAt(cfg, origin, saves, j);
      TimesAscend(cfg, origin, saves, i, j - 1);
    }
  }

  /** The version counts the saves. */
  lemma {:induction false} VersionCounts<C>(cfg: Config, origin: SagaRecord<C>, saves: seq<Save<C>>)
    requires LegalHistory(cfg, origin, saves)
    ensures Latest(origin, saves).version == |saves|
    decreases |saves|
  {
    if saves != [] { VersionCounts(cfg, origin, saves[..|saves| - 1]); }
  }

  /** The save an event makes, if it makes one. */
  ghost predicate Saves<C>(s: State<C>, e: Event<C>, next: State<C>, sv: Save<C>) {
    && !e.Tick? && sv.runner == e.r && sv.at == s.now && (sv.kind.Settle? <==> e.SaveSettled?)
    && next.saves == s.saves + [sv]
  }

  lemma StepSaves<C>(cfg: Config, s: State<C>, e: Event<C>)
    requires cfg.order != [] && Step(cfg, s, e).Some?
    ensures var next := Step(cfg, s, e).value;
            next.saves != s.saves ==> next.saves != [] && Saves(s, e, next, next.saves[|next.saves| - 1])
    ensures s.saves <= Step(cfg, s, e).value.saves
  {
  }

  // ---- Lease exclusion

  /** The save that directly follows a claim is either the holder's or comes no earlier than the
      lease's end. */
  lemma NextSaveRespectsLease<C>(cfg: Config, origin: SagaRecord<C>, saves: seq<Save<C>>, i: nat)
    requires cfg.Valid() && LegalHistory(cfg, origin, saves) && i + 1 < |saves|
    requires saves[i].kind.Claim?
    ensures saves[i].record.claimExpiresAt.Some?
    ensures saves[i + 1].runner == saves[i].runner
            || saves[i].record.claimExpiresAt.value <= saves[i + 1].at
  {
    LegalAt(cfg, origin, saves, i);
    LegalAt(cfg, origin, saves, i + 1);
    assert Latest(origin, saves[..i + 1]) == saves[i].record;
    LatestWellFormed(cfg, origin, saves[..i + 1]);
  }

  /** Lease exclusion: after runner r's claim with expiry e, no other runner's save lands before e
      unless r itself has saved in between. */
  lemma LeaseExclusion<C(!new)>(cfg: Config, s: State<C>, i: nat, j: nat)
    requires Reachable(cfg, s) && i < j < |s.saves|
    requires s.saves[i].kind.Claim? && s.saves[j].runner != s.saves[i].runner
    ensures s.saves[i].record.claimExpiresAt.Some?
    ensures s.saves[j].at < s.saves[i].record.claimExpiresAt.value ==>
              exists k :: i < k < j && s.saves[k].runner == s.saves[i].runner
  {
    ReachableInv(cfg, s);
    NextSaveRespectsLease(cfg, s.origin.value, s.saves, i);
    TimesAscend(cfg, s.origin.value, s.saves, i + 1, j);
    if s.saves[j].at < s.saves[i].record.claimExpiresAt.value {
      assert s.saves[i + 1].runner == s.saves[i].runner;
    }
  }

  /** Every result that was stored came directly after its own runner's claim of the same step: no
      other save, by anyone, lies between claiming a step and recording its outcome. */
  lemma ResultFollowsOwnClaim<C(!new)>(cfg: Config, s: State<C>, j: nat)
    requires Reachable(cfg, s) && j < |s.saves| && s.saves[j].kind.Settle?
    ensures j > 0 && s.saves[j - 1].runner == s.saves[j].runner
    ensures s.saves[j - 1].kind == Claim(s.saves[j].kind.step)
  {
    ReachableInv(cfg, s);
    LegalAt(cfg, s.origin.value, s.saves, j);
  }

  lemma {:induction false} VersionsGrow<C>(cfg: Config, s: State<C>, trace: seq<Event<C>>)
    requires Inv(cfg, s) && s.rec.Some? && Replay(cfg, s, trace).Some?
    ensures var s' := Replay(cfg, s, trace).value;
            s'.rec.Some? && s.rec.value.version <= s'.rec.value.version
    decreases |trace|
  {
    if trace != [] {
      VersionStep(cfg, s, trace[0]);
      StepKeepsInv(cfg, s, trace[0]);
      VersionsGrow(cfg, Step(cfg, s, trace[0]).value, trace[1..]);
    }
  }

  lemma VersionStep<C>(cfg: Config, s: State<C>, e: Event<C>)
    requires Inv(cfg, s) && s.rec.Some? && Step(cfg, s, e).Some?
    ensures var s' := Step(cfg, s, e).value;
            && s'.rec.Some?
            && if s'.saves == s.saves then s'.rec == s.rec
               else s'.rec.value.version == s.rec.value.version + 1 && !s.rec.value.Terminal()
  {
    if e.SaveClaim? || e.SaveSettled? || e.SaveFinal? {
      assert PcOk(cfg, s, e.r, s.PcOf(e.r));
    }
  }

  /** A runner whose claim has been overtaken can never store its result: whatever else happens
      first, its save of that result leaves record and history as they are. */
  lemma LostLeaseNeverStores<C(!new)>(cfg: Config, s: State<C>, r: nat, trace: seq<Event<C>>)
    requires Reachable(cfg, s) && s.PcOf(r).Settling?
    requires !HoldsClaim(s, r, s.PcOf(r).step)
    requires Replay(cfg, s, trace).Some? && Replay(cfg, s, trace).value.PcOf(r) == s.PcOf(r)
    ensures var later := Replay(cfg, s, trace).value;
            var after := Step(cfg, later, SaveSettled(r));
            && after.Some? && after.value.rec == later.rec && after.value.saves == later.saves
            && after.value.PcOf(r).Idle?
  {
    ReachableInv(cfg, s);
    assert PcOk(cfg, s, r, s.PcOf(r));
    VersionsGrow(cfg, s, trace);
  }

  // ---- Shape of the log

  /** One action or compensation whose result was recorded. */
  datatype Effect<C> = Effect(undo: bool, step: string, before: C, after: C)

  /** What one save adds to the log. */
  function EffectOf<C>(prev: SagaRecord<C>, sv: Save<C>): seq<Effect<C>> {
    if sv.kind.Settle? && sv.kind.outcome.Done? then
      [Effect(prev.status.Compensating?, sv.kind.step, prev.context, sv.kind.outcome.context)]
    else []
  }

  /** The recorded actions and compensations, in the order they were stored. */
  function Effects<C>(origin: SagaRecord<C>, saves: seq<Save<C>>): seq<Effect<C>> {
    if saves == [] then []
    else
      var earlier := saves[..|saves| - 1];
      Effects(origin, earlier) + EffectOf(Latest(origin, earlier), saves[|saves| - 1])
  }

  /** Actions of steps 0..k-1 in step order, then compensations of steps k-1 down to j. */
  ghost predicate UpThenDown<C>(order: seq<string>, fx: seq<Effect<C>>, k: nat, j: nat) {
    && j <= k <= |order| && |fx| == k + (k - j)
    && (forall i :: 0 <= i < k ==> !fx[i].undo && fx[i].step == order[i])
    && (forall i :: k <= i < |fx| ==> fx[i].undo && fx[i].step == order[2 * k - 1 - i])
  }

  /** The context after the first i effects. */
  function ContextAt<C>(first: C, fx: seq<Effect<C>>, i: nat): C
    requires i <= |fx|
  {
    if i == 0 then first else fx[i - 1].after
  }

  /** Every effect starts from the context the one before it left; the last leaves `last`. */
  ghost predicate Chained<C>(first: C, fx: seq<Effect<C>>, last: C) {
    && (forall i {:trigger ContextAt(first, fx, i)} :: 0 <= i < |fx| ==> fx[i].before == ContextAt(first, fx, i))
    && last == ContextAt(first, fx, |fx|)
  }

  /** The log fits the record: k actions went up before anything was undone. */
  ghost predicate Fits<C>(order: seq<string>, rec: SagaRecord<C>, fx: seq<Effect<C>>, k: nat) {
    && UpThenDown(order, fx, k, |rec.completedSteps|)
    && (rec.status.Running? || rec.status.Completed? ==> k == |rec.completedSteps|)
    && (rec.status.Compensating? || rec.status.Failed? ==> k < |order|)
  }

  ghost predicate LogShape<C>(cfg: Config, origin: SagaRecord<C>, rec: SagaRecord<C>, fx: seq<Effect<C>>) {
    && rec.completedSteps <= cfg.order
    && Chained(origin.context, fx, rec.context)
    && exists k: nat :: Fits(cfg.order, rec, fx, k)
  }

  lemma UpGrows<C>(order: seq<string>, fx: seq<Effect<C>>, k: nat, f: Effect<C>)
    requires UpThenDown(order, fx, k, k) && k < |order| && !f.undo && f.step == order[k]
    ensures UpThenDown(order, fx + [f], k + 1, k + 1)
  {
  }

  lemma DownGrows<C>(order: seq<string>, fx: seq<Effect<C>>, k: nat, j: nat, f: Effect<C>)
    requires UpThenDown(order, fx, k, j) && 0 < j && f.undo && f.step == order[j - 1]
    ensures UpThenDown(order, fx + [f], k, j - 1)
  {
  }

  lemma FitsStep<C>(cfg: Config, prev: SagaRecord<C>, sv: Save<C>, fx: seq<Effect<C>>, k: nat)
    returns (k': nat)
    requires cfg.Valid() && WellFormed(cfg, prev) && LegalSave(cfg, prev, sv) && Fits(cfg.order, prev, fx, k)
    ensures Fits(cfg.order, sv.record, fx + EffectOf(prev, sv), k')
  {
    NextStepIs(cfg, prev);
    k' := k;
    if sv.kind.Settle? && sv.kind.outcome.Done? {
      SettledSteps(cfg, prev, sv.kind.step, sv.kind.outcome);
      var f := EffectOf(prev, sv)[0];
      if prev.status.Compensating? {
        DownGrows(cfg.order, fx, k, |prev.completedSteps|, f);
      } else {
        UpGrows(cfg.order, fx, k, f);
        k' := k + 1;
      }
    } else {
      assert fx + EffectOf(prev, sv) == fx;
      if sv.kind.Settle? { SettledSteps(cfg, prev, sv.kind.step, sv.kind.outcome); }
    }
  }

  lemma {:induction false} HistoryShape<C>(cfg: Config, origin: SagaRecord<C>, saves: seq<Save<C>>)
    requires cfg.Valid() && LegalHistory(cfg, origin, saves)
    ensures LogShape(cfg, origin, Latest(origin, saves), Effects(origin, saves))
    decreases |saves|
  {
    var fx := Effects(origin, saves);
    if saves == [] {
      assert Fits(cfg.order, origin, fx, 0);
    } else {
      var earlier, sv := saves[..|saves| - 1], saves[|saves| - 1];
      var prev := Latest(origin, earlier);
      var earlierFx := Effects(origin, earlier);
      HistoryShape(cfg, origin, earlier);
      LatestWellFormed(cfg, origin, earlier);
      LegalSaveKeepsWellFormed(cfg, prev, sv);
      var k: nat :| Fits(cfg.order, prev, earlierFx, k);
      var k' := FitsStep(cfg, prev, sv, earlierFx, k);
      if EffectOf(prev, sv) != [] {
        ChainGrows(origin.context, earlierFx, prev.context, EffectOf(prev, sv)[0]);
      } else {
        assert fx == earlierFx;
      }
    }
  }

  lemma ChainGrows<C>(first: C, fx: seq<Effect<C>>, last: C, f: Effect<C>)
    requires Chained(first, fx, last) && f.before == last
    ensures Chained(first, fx + [f], f.after)
  {
    forall i | 0 <= i <= |fx| ensures ContextAt(first, fx + [f], i) == ContextAt(first, fx, i) {
    }
  }

  /** In every reachable state the recorded results are actions 0..k-1 followed by compensations
      k-1 down to j, `completedSteps` names exactly steps 0..j-1, and the stored context is what
      that log leaves of the initial context. */
  lemma LogShapeHolds<C(!new)>(cfg: Config, s: State<C>)
    requires Reachable(cfg, s) && s.rec.Some?
    ensures s.origin.Some? && LogShape(cfg, s.origin.value, s.rec.value, Effects(s.origin.value, s.saves))
  {
    ReachableInv(cfg, s);
    HistoryShape(cfg, s.origin.value, s.saves);
  }

  /** Wherever a compensation started from what its step's action had produced, it gave back what
      that action had started from. */
  ghost predicate CompensationsUndo<C>(fx: seq<Effect<C>>) {
    forall a, b | 0 <= a < b < |fx| && !fx[a].undo && fx[b].undo && fx[a].step == fx[b].step ::
      fx[b].before == fx[a].after ==> fx[b].after == fx[a].before
  }

  /** After undoing down to step m, the context is the one step m had started from. */
  lemma {:induction false} UndoneTo<C>(order: seq<string>, first: C, fx: seq<Effect<C>>, last: C, k: nat, j: nat,
      m: nat)
    requires UpThenDown(order, fx, k, j) && Chained(first, fx, last) && CompensationsUndo(fx)
    requires j <= m <= k
    ensures ContextAt(first, fx, 2 * k - m) == ContextAt(first, fx, m)
    decreases k - m
  {
    if m < k {
      UndoneTo(order, first, fx, last, k, j, m + 1);
      var b := 2 * k - 1 - m;
      assert fx[b].step == order[m] && fx[m].step == order[m];
      assert fx[b].before == ContextAt(first, fx, b) == ContextAt(first, fx, m + 1) == fx[m].after;
      assert fx[m].before == ContextAt(first, fx, m);
    }
  }

  /** If every compensation undoes its step's action, a saga that failed ends with the context it
      was started with. */
  lemma FailedSagaRestoresContext<C(!new)>(cfg: Config, s: State<C>)
    requires Reachable(cfg, s) && s.rec.Some? && s.rec.value.status.Failed?
    requires s.origin.Some? && CompensationsUndo(Effects(s.origin.value, s.saves))
    ensures s.rec.value.context == s.origin.value.context
  {
    LogShapeHolds(cfg, s);
    ReachableInv(cfg, s);
    var fx := Effects(s.origin.value, s.saves);
    var k: nat :| Fits(cfg.order, s.rec.value, fx, k);
    UndoneTo(cfg.order, s.origin.value.context, fx, s.rec.value.context, k, 0, 0);
  }

  // ---- Termination and outcome

  /** Saves other than claims and other than giving a lease back after a failed compensation. */
  predicate IsProgress<C>(prev: SagaRecord<C>, sv: Save<C>) {
    match sv.kind
    case Claim(_) => false
    case Settle(_, o) => !(prev.status.Compensating? && o.Threw?)
    case Finish => true
  }

  function ProgressSaves<C>(origin: SagaRecord<C>, saves: seq<Save<C>>): nat {
    if saves == [] then 0
    else
      var earlier := saves[..|saves| - 1];
      ProgressSaves(origin, earlier) + if IsProgress(Latest(origin, earlier), saves[|saves| - 1]) then 1 else 0
  }

  /** How many progress saves the record is still away from being terminal, at most. */
  function Measure<C>(n: nat, rec: SagaRecord<C>): int {
    var k := |rec.completedSteps|;
    match rec.status
    case Running => if k < n then 2 * n - k else 1
    case Compensating => k + 1
    case _ => 0
  }

  lemma ProgressDecreasesMeasure<C>(cfg: Config, prev: SagaRecord<C>, sv: Save<C>)
    requires cfg.Valid() && WellFormed(cfg, prev) && LegalSave(cfg, prev, sv)
    ensures var n := |cfg.order|;
            if IsProgress(prev, sv) then 0 <= Measure(n, sv.record) < Measure(n, prev)
            else Measure(n, sv.record) == Measure(n, prev)
  {
    NextStepIs(cfg, prev);
    if sv.kind.Settle? {
      SettledSteps(cfg, prev, sv.kind.step, sv.kind.outcome);
    }
  }

  lemma {:induction false} ProgressBound<C>(cfg: Config, origin: SagaRecord<C>, saves: seq<Save<C>>)
    requires cfg.Valid() && LegalHistory(cfg, origin, saves)
    ensures ProgressSaves(origin, saves) + Measure(|cfg.order|, Latest(origin, saves)) <= 2 * |cfg.order|
    ensures Measure(|cfg.order|, Latest(origin, saves)) >= 0
    decreases |saves|
  {
    if saves != [] {
      var earlier := saves[..|saves| - 1];
      ProgressBound(cfg, origin, earlier);
      LatestWellFormed(cfg, origin, earlier);
      ProgressDecreasesMeasure(cfg, Latest(origin, earlier), saves[|saves| - 1]);
    }
  }

  /** However runners interleave, crash and retry, a saga of n steps makes at most 2n saves that
      are not claims or lease releases. */
  lemma AtMostTwiceTheSteps<C(!new)>(cfg: Config, s: State<C>)
    requires Reachable(cfg, s) && s.rec.Some?
    ensures s.origin.Some? && ProgressSaves(s.origin.value, s.saves) <= 2 * |cfg.order|
  {
    ReachableInv(cfg, s);
    ProgressBound(cfg, s.origin.value, s.saves);
  }

  /** A completed saga has recorded every step, a failed one none, and neither holds a lease or names a step. */
  lemma OutcomeOfTerminal<C(!new)>(cfg: Config, s: State<C>)
    requires Reachable(cfg, s) && s.rec.Some? && s.rec.value.Terminal()
    ensures s.rec.value.completedSteps == if s.rec.value.status.Completed? then cfg.order else []
    ensures s.rec.value.claimExpiresAt == None && s.rec.value.currentStep == None
  {
    ReachableInv(cfg, s);
    HistoryError(cfg, s.origin.value, s.saves);
  }

  /** A terminal record never changes again, whatever runners still do. */
  lemma {:induction false} TerminalIsForever<C(!new)>(cfg: Config, s: State<C>, trace: seq<Event<C>>)
    requires Inv(cfg, s) && s.rec.Some? && s.rec.value.Terminal()
    requires Replay(cfg, s, trace).Some?
    ensures Replay(cfg, s, trace).value.rec == s.rec
    ensures Replay(cfg, s, trace).value.saves == s.saves
    decreases |trace|
  {
    if trace != [] {
      VersionStep(cfg, s, trace[0]);
      StepKeepsInv(cfg, s, trace[0]);
      TerminalIsForever(cfg, Step(cfg, s, trace[0]).value, trace[1..]);
    }
  }

  // ---- How a saga starts, and why it turns round

  /** Running a saga that is not there creates it, with the caller's order and context and nothing done;
      running one that is there takes it as it is. */
  lemma RunStartsOrJoins<C>(cfg: Config, s: State<C>, r: nat, orderId: string, context: C)
    requires Inv(cfg, s) && s.PcOf(r).Idle?
    ensures Step(cfg, s, Run(r, orderId, context)).Some?
    ensures var s' := Step(cfg, s, Run(r, orderId, context)).value;
            && s'.rec.Some?
            && (s.rec.Some? ==> s'.rec == s.rec && s'.saves == s.saves)
            && (s.rec.None? ==>
                  && s'.origin == s'.rec && s'.rec.value.orderId == orderId && s'.rec.value.context == context
                  && s'.rec.value.status.Running? && s'.rec.value.completedSteps == [] && s'.rec.value.error.None?
                  && s'.rec.value.sagaId == cfg.sagaId && s'.rec.value.version == 0)
  {
  }

  /** The message of the action that threw, if one has: the first result that did, made while running. */
  function WhatThrew<C>(origin: SagaRecord<C>, saves: seq<Save<C>>): Option<string> {
    if saves == [] then None
    else
      var earlier, sv := saves[..|saves| - 1], saves[|saves| - 1];
      if Latest(origin, earlier).status.Running? && sv.kind.Settle? && sv.kind.outcome.Threw?
      then Some(sv.kind.outcome.message) else WhatThrew(origin, earlier)
  }

  lemma {:induction false} HistoryError<C>(cfg: Config, origin: SagaRecord<C>, saves: seq<Save<C>>)
    requires cfg.Valid() && LegalHistory(cfg, origin, saves)
    ensures Latest(origin, saves).error == WhatThrew(origin, saves)
    ensures Latest(origin, saves).orderId == origin.orderId && Latest(origin, saves).sagaId == origin.sagaId
    ensures var last := Latest(origin, saves);
            && (last.error.Some? <==> last.status.Compensating? || last.status.Failed?)
            && (last.Terminal() ==> last.currentStep.None?)
    decreases |saves|
  {
    if saves != [] { HistoryError(cfg, origin, saves[..|saves| - 1]); }
  }

  /** A saga compensates or has failed exactly when one of its actions threw, and its error is the message of
      that action; order and saga id stay those it was created with. */
  lemma ErrorIsWhatThrew<C(!new)>(cfg: Config, s: State<C>)
    requires Reachable(cfg, s) && s.rec.Some?
    ensures s.origin.Some? && s.rec.value.error == WhatThrew(s.origin.value, s.saves)
    ensures s.rec.value.error.Some? <==> s.rec.value.status.Compensating? || s.rec.value.status.Failed?
    ensures s.rec.value.orderId == s.origin.value.orderId && s.rec.value.sagaId == cfg.sagaId
  {
    ReachableInv(cfg, s);
    HistoryError(cfg, s.origin.value, s.saves);
  }

  /** The record carries a lease exactly while the last save is a claim, on the step that was claimed: storing a
      result, turning round, giving up after a compensation that threw and finishing all give it back. */
  lemma LeasedExactlyWhileClaimed<C(!new)>(cfg: Config, s: State<C>)
    requires Reachable(cfg, s) && s.rec.Some?
    ensures s.rec.value.claimExpiresAt.Some? <==> s.saves != [] && s.saves[|s.saves| - 1].kind.Claim?
    ensures s.rec.value.claimExpiresAt.Some? ==>
              s.rec.value.currentStep == Some(s.saves[|s.saves| - 1].kind.step)
  {
    ReachableInv(cfg, s);
    if s.saves != [] { LegalAt(cfg, s.origin.value, s.saves, |s.saves| - 1); }
  }

  // ---- Recovery

  lemma {:induction false} ReplayAppend<C>(cfg: Config, s: State<C>, a: seq<Event<C>>, b: seq<Event<C>>)
    requires cfg.order != [] && Replay(cfg, s, a).Some?
    ensures Replay(cfg, s, a + b) == Replay(cfg, Replay(cfg, s, a).value, b)
    decreases |a|
  {
    if a == [] {
      assert a + b == b;
    } else {
      assert (a + b)[1..] == a[1..] + b;
      ReplayAppend(cfg, Step(cfg, s, a[0]).value, a[1..], b);
    }
  }

  /** A runner at its loop head with the stored record in hand and no live lease in its way. */
  ghost predicate Unhindered<C>(cfg: Config, s: State<C>, r: nat) {
    && Inv(cfg, s) && s.rec.Some? && s.PcOf(r) == AtLoop(s.rec.value)
    && (s.rec.value.claimExpiresAt.Some? ==> s.rec.value.claimExpiresAt.value <= s.now)
  }

  /** An unhindered runner's claim lands. */
  lemma ClaimLands<C>(cfg: Config, s: State<C>, r: nat) returns (s1: State<C>, s2: State<C>)
    requires Unhindered(cfg, s, r) && NextStep(cfg, s.rec.value).Some?
    ensures Step(cfg, s, CheckLease(r)) == Some(s1) && Step(cfg, s1, SaveClaim(r, s.now)) == Some(s2)
    ensures var step := NextStep(cfg, s.rec.value).value;
            var claimed := Claimed(cfg, s.rec.value, step, s.now).Bump();
            s2.rec == Some(claimed) && s2.PcOf(r) == Acting(claimed, step)
    ensures Inv(cfg, s2) && s2.now == s.now
  {
    assert PcOk(cfg, s, r, s.PcOf(r));
    StepKeepsInv(cfg, s, CheckLease(r));
    s1 := Step(cfg, s, CheckLease(r)).value;
    StepKeepsInv(cfg, s1, SaveClaim(r, s.now));
    s2 := Step(cfg, s1, SaveClaim(r, s.now)).value;
  }

  /** The result of a step whose claim is in place is stored. */
  lemma ResultLands<C>(cfg: Config, s2: State<C>, r: nat, o: Outcome<C>) returns (s3: State<C>, s4: State<C>)
    requires Inv(cfg, s2) && s2.rec.Some? && s2.PcOf(r).Acting? && s2.PcOf(r).cur == s2.rec.value && o.Done?
    ensures Step(cfg, s2, Finished(r, o)) == Some(s3) && Step(cfg, s3, SaveSettled(r)) == Some(s4)
    ensures Unhindered(cfg, s4, r) && s4.now == s2.now
    ensures Measure(|cfg.order|, s4.rec.value) < Measure(|cfg.order|, s2.rec.value)
  {
    assert PcOk(cfg, s2, r, s2.PcOf(r));
    StepKeepsInv(cfg, s2, Finished(r, o));
    s3 := Step(cfg, s2, Finished(r, o)).value;
    StepKeepsInv(cfg, s3, SaveSettled(r));
    s4 := Step(cfg, s3, SaveSettled(r)).value;
    var step := s2.PcOf(r).step;
    ProgressDecreasesMeasure(cfg, s2.rec.value, Save(r, s2.now, Settle(step, o), s4.rec.value));
  }

  /** One turn of the loop by an unhindered runner whose step succeeds. */
  lemma OneTurn<C>(cfg: Config, s: State<C>, r: nat) returns (turn: seq<Event<C>>, s4: State<C>)
    requires Unhindered(cfg, s, r) && NextStep(cfg, s.rec.value).Some?
    ensures Replay(cfg, s, turn) == Some(s4) && Unhindered(cfg, s4, r) && s4.now == s.now
    ensures Measure(|cfg.order|, s4.rec.value) < Measure(|cfg.order|, s.rec.value)
  {
    var o := Done(s.rec.value.context);
    var s1, s2 := ClaimLands(cfg, s, r);
    var s3;
    s3, s4 := ResultLands(cfg, s2, r, o);
    turn := [CheckLease(r), SaveClaim(r, s.now), Finished(r, o), SaveSettled(r)];
    FourSteps(cfg, s, turn, s1, s2, s3, s4);
  }

  lemma FourSteps<C>(cfg: Config, s: State<C>, turn: seq<Event<C>>,
                     s1: State<C>, s2: State<C>, s3: State<C>, s4: State<C>)
    requires cfg.order != [] && |turn| == 4
    requires Step(cfg, s, turn[0]) == Some(s1) && Step(cfg, s1, turn[1]) == Some(s2)
    requires Step(cfg, s2, turn[2]) == Some(s3) && Step(cfg, s3, turn[3]) == Some(s4)
    ensures Replay(cfg, s, turn) == Some(s4)
  {
    var t1 := turn[1..];
    var t2 := t1[1..];
    var t3 := t2[1..];
    assert t3[1..] == [];
    assert Replay(cfg, s4, t3[1..]) == Some(s4);
    assert Replay(cfg, s3, t3) == Some(s4);
    assert Replay(cfg, s2, t2) == Some(s4);
    assert Replay(cfg, s1, t1) == Some(s4);
  }

  lemma {:induction false} DriveToEnd<C>(cfg: Config, s: State<C>, r: nat) returns (trace: seq<Event<C>>, s': State<C>)
    requires Unhindered(cfg, s, r)
    ensures Replay(cfg, s, trace) == Some(s') && s'.now == s.now
    ensures s'.rec.Some? && s'.rec.value.Terminal()
    decreases Measure(|cfg.order|, s.rec.value)
  {
    LatestWellFormed(cfg, s.origin.value, s.saves);
    assert PcOk(cfg, s, r, s.PcOf(r));
    if NextStep(cfg, s.rec.value).None? {
      trace, s' := [SaveFinal(r)], Step(cfg, s, SaveFinal(r)).value;
      assert Replay(cfg, s', trace[1..]) == Some(s');
    } else {
      var turn, mid := OneTurn(cfg, s, r);
      var rest;
      rest, s' := DriveToEnd(cfg, mid, r);
      trace := turn + rest;
      ReplayAppend(cfg, s, turn, rest);
    }
  }

  /** Recovery: from every reachable state, whatever runners crashed in it, one runner that
      resumes can bring the saga to an end if its steps succeed, and it has to wait no longer than
      one lease. */
  lemma AlwaysRecoverable<C(!new)>(cfg: Config, s: State<C>, r: nat)
    requires Reachable(cfg, s) && s.rec.Some?
    ensures exists trace: seq<Event<C>> ::
              && Replay(cfg, s, trace).Some?
              && Replay(cfg, s, trace).value.rec.Some?
              && Replay(cfg, s, trace).value.rec.value.Terminal()
              && Replay(cfg, s, trace).value.now <= s.now + cfg.lease
  {
    ReachableInv(cfg, s);
    var rec := s.rec.value;
    if rec.Terminal() {
      assert Replay(cfg, s, []) == Some(s);
    } else {
      if rec.claimExpiresAt.Some? { LeaseEndsSoon(cfg, s); }
      var wake := if rec.claimExpiresAt.Some? && rec.claimExpiresAt.value > s.now then rec.claimExpiresAt.value
          else s.now;
      var s1 := Step(cfg, s, Crash(r)).value;
      StepKeepsInv(cfg, s, Crash(r));
      var s2 := Step(cfg, s1, Tick(wake)).value;
      StepKeepsInv(cfg, s1, Tick(wake));
      var s3 := Step(cfg, s2, Resume(r)).value;
      StepKeepsInv(cfg, s2, Resume(r));
      var rest, s4 := DriveToEnd(cfg, s3, r);
      var trace := [Crash(r), Tick(wake), Resume(r)] + rest;
      assert trace[1..][1..][1..] == rest;
      assert Replay(cfg, s2, trace[1..][1..]) == Some(s4);
      assert Replay(cfg, s1, trace[1..]) == Some(s4);
      assert Replay(cfg, s, trace) == Some(s4);
    }
  }

  lemma LeaseEndsSoon<C>(cfg: Config, s: State<C>)
    requires Inv(cfg, s) && s.rec.Some? && s.rec.value.claimExpiresAt.Some?
    ensures s.rec.value.claimExpiresAt.value <= s.now + cfg.lease
  {
    assert s.saves != [];
    LegalAt(cfg, s.origin.value, s.saves, |s.saves| - 1);
  }
}
