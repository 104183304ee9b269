/** What every interleaving keeps: the saves that land form one legal sequential history. */
module SagaInvariant {
  import opened Common
  import opened SagaMachine

  /** Completed steps are a prefix of the step order, and a claim is always on the step that a
      reader of the record would pick next. */
  ghost predicate WellFormed<C>(cfg: Config, rec: SagaRecord<C>) {
    && rec.sagaId == cfg.sagaId
    && rec.completedSteps <= cfg.order
    && (rec.status.Completed? ==> rec.completedSteps == cfg.order)
    && (rec.status.Failed? ==> rec.completedSteps == [])
    && (rec.status.Compensating? ==> rec.completedSteps < cfg.order)
    && (rec.claimExpiresAt.Some? ==>
          !rec.Terminal() && NextStep(cfg, rec).Some? && rec.currentStep == NextStep(cfg, rec))
  }

  /** `sv` is one the protocol allows on top of `prev`. */
  ghost predicate LegalSave<C>(cfg: Config, prev: SagaRecord<C>, sv: Save<C>) {
    && !prev.Terminal()
    && match sv.kind
       case Claim(step) =>
         && NextStep(cfg, prev) == Some(step)
         && (prev.claimExpiresAt.Some? ==> prev.claimExpiresAt.value <= sv.at)
         && sv.record.claimExpiresAt.Some?
         && sv.record == Claimed(cfg, prev, step, sv.record.claimExpiresAt.value - cfg.lease).Bump()
         && sv.record.claimExpiresAt.value <= sv.at + cfg.lease
       case Settle(step, o) =>
         && prev.claimExpiresAt.Some?
         && NextStep(cfg, prev) == Some(step)
         && sv.record == Settled(prev, step, o).Bump()
       case Finish =>
         && NextStep(cfg, prev) == None
         && sv.record == Final(prev).Bump()
  }

  /** Time moves on, and a step is settled only directly after its own runner claimed it. */
  ghost predicate Adjacent<C>(a: Save<C>, b: Save<C>) {
    && a.at <= b.at
    && (b.kind.Settle? ==> a.kind == Claim(b.kind.step) && a.runner == b.runner)
  }

  /** The record after all of `saves`. */
  function Latest<C>(origin: SagaRecord<C>, saves: seq<Save<C>>): SagaRecord<C> {
    if saves == [] then origin else saves[|saves| - 1].record
  }

  ghost predicate LegalHistory<C>(cfg: Config, origin: SagaRecord<C>, saves: seq<Save<C>>) {
    if saves == [] then cfg.order != [] && origin == Fresh(cfg, origin.orderId, origin.context)
    else
      var earlier, sv := saves[..|saves| - 1], saves[|saves| - 1];
      && LegalHistory(cfg, origin, earlier)
      && LegalSave(cfg, Latest(origin, earlier), sv)
      && (if earlier == [] then !sv.kind.Settle? else Adjacent(earlier[|earlier| - 1], sv))
  }

  /** A runner's copy is never ahead of the store and, at the same version, is the stored record. */
  ghost predicate CopyOk<C>(cfg: Config, s: State<C>, cur: SagaRecord<C>) {
    && s.rec.Some?
    && !cur.Terminal()
    && WellFormed(cfg, cur)
    && cur.version <= s.rec.value.version
    && (cur.version == s.rec.value.version ==> cur == s.rec.value)
  }

  /** The last save is runner r's claim of `step`. */
  ghost predicate HoldsClaim<C>(s: State<C>, r: nat, step: string) {
    s.saves != [] && s.saves[|s.saves| - 1].kind == Claim(step) && s.saves[|s.saves| - 1].runner == r
  }

  ghost predicate PcOk<C>(cfg: Config, s: State<C>, r: nat, pc: Pc<C>) {
    match pc
    case Idle => true
    case AtLoop(cur) => CopyOk(cfg, s, cur)
    case Claiming(cur, step, checkedAt) =>
      && CopyOk(cfg, s, cur) && NextStep(cfg, cur) == Some(step) && checkedAt <= s.now
      && (cur.claimExpiresAt.Some? ==> cur.claimExpiresAt.value <= checkedAt)
    case Acting(cur, step) =>
      && CopyOk(cfg, s, cur) && NextStep(cfg, cur) == Some(step) && cur.claimExpiresAt.Some?
      && (cur.version == s.rec.value.version ==> HoldsClaim(s, r, step))
    case Settling(cur, step, o) =>
      && CopyOk(cfg, s, cur) && NextStep(cfg, cur) == Some(step) && cur.claimExpiresAt.Some?
      && (cur.version == s.rec.value.version ==> HoldsClaim(s, r, step))
  }

  ghost predicate Inv<C>(cfg: Config, s: State<C>) {
    && cfg.Valid()
    && s.rec.Some? == s.origin.Some?
    && (s.rec.None? ==> s.saves == [])
    && (s.rec.Some? ==>
          && LegalHistory(cfg, s.origin.value, s.saves)
          && s.rec.value == Latest(s.origin.value, s.saves)
          && WellFormed(cfg, s.rec.value))
    && (s.saves != [] ==> s.saves[|s.saves| - 1].at <= s.now)
    && (forall r: nat :: PcOk(cfg, s, r, s.PcOf(r)))
  }

  lemma ExcludingPrefix(order: seq<string>, k: nat)
    requires k <= |order| && Distinct(order)
    ensures Excluding(order, order[..k]) == order[k..]
  {
    ExcludingPrefixFrom(order, k, 0);
    assert order[0..] == order;
  }

  lemma {:induction false} ExcludingPrefixFrom(order: seq<string>, k: nat, i: nat)
    requires i <= |order| && k <= |order| && Distinct(order)
    ensures Excluding(order[i..], order[..k]) == order[(if i < k then k else i)..]
    decreases |order| - i
  {
    if i < |order| {
      ExcludingPrefixFrom(order, k, i + 1);
      assert order[i..][0] == order[i] && order[i..][1..] == order[i + 1..];
      assert order[i] in order[..k] <==> i < k by {
        if i < k { assert order[..k][i] == order[i]; }
      }
    }
  }

  lemma {:induction false} ExcludingLast(names: seq<string>)
    requires names != [] && Distinct(names)
    ensures Excluding(names, [names[|names| - 1]]) == names[..|names| - 1]
  {
    if |names| > 1 {
      assert names[1..][|names| - 2] == names[|names| - 1];
      ExcludingLast(names[1..]);
      assert names[0] !in [names[|names| - 1]];
      assert [names[0]] + names[1..][..|names| - 2] == names[..|names| - 1];
    }
  }

  /** The next step of a running saga is the first step not yet recorded; of a compensating one,
      the last step still recorded. */
  lemma NextStepIs<C>(cfg: Config, rec: SagaRecord<C>)
    requires cfg.Valid() && WellFormed(cfg, rec)
    ensures var k := |rec.completedSteps|;
            NextStep(cfg, rec) ==
              if rec.status.Compensating? then if k == 0 then None else Some(cfg.order[k - 1])
              else if k == |cfg.order| then None else Some(cfg.order[k])
  {
    var k := |rec.completedSteps|;
    assert rec.completedSteps == cfg.order[..k];
    ExcludingPrefix(cfg.order, k);
  }

  /** What settling does to the recorded steps: one more at the end, one less at the end, or none. */
  lemma SettledSteps<C>(cfg: Config, rec: SagaRecord<C>, step: string, o: Outcome<C>)
    requires cfg.Valid() && WellFormed(cfg, rec) && !rec.Terminal() && NextStep(cfg, rec) == Some(step)
    ensures rec.status.Compensating? ==> rec.completedSteps != []
    ensures rec.status.Running? ==> |rec.completedSteps| < |cfg.order|
    ensures var k := |rec.completedSteps|;
            Settled(rec, step, o).completedSteps ==
              if o.Threw? then cfg.order[..k]
              else if rec.status.Compensating? then cfg.order[..k - 1] else cfg.order[..k + 1]
  {
    NextStepIs(cfg, rec);
    if rec.status.Compensating? {
      ExcludingLast(rec.completedSteps);
    }
  }

  lemma LegalSaveKeepsWellFormed<C>(cfg: Config, prev: SagaRecord<C>, sv: Save<C>)
    requires cfg.Valid() && WellFormed(cfg, prev) && LegalSave(cfg, prev, sv)
    ensures WellFormed(cfg, sv.record)
  {
    NextStepIs(cfg, prev);
    match sv.kind
    case Claim(step) =>
    case Settle(step, o) => SettledSteps(cfg, prev, step, o);
    case Finish =>
  }

  /** A runner's place stays in order when the record and its history stay as they are. */
  lemma PcFrame<C>(cfg: Config, s: State<C>, s': State<C>, r: nat, pc: Pc<C>)
    requires PcOk(cfg, s, r, pc)
    requires s'.rec == s.rec && s'.saves == s.saves && s.now <= s'.now
    ensures PcOk(cfg, s', r, pc)
  {
  }

  /** A save leaves every copy read earlier behind the store. */
  lemma PcAfterSave<C>(cfg: Config, s: State<C>, s': State<C>, r: nat, pc: Pc<C>)
    requires PcOk(cfg, s, r, pc) && s.rec.Some? && s'.rec.Some?
    requires s'.rec.value.version == s.rec.value.version + 1 && s'.now == s.now
    ensures PcOk(cfg, s', r, pc)
  {
  }

  lemma LegalHistoryExtends<C>(cfg: Config, origin: SagaRecord<C>, saves: seq<Save<C>>, sv: Save<C>)
    requires LegalHistory(cfg, origin, saves)
    requires LegalSave(cfg, Latest(origin, saves), sv)
    requires if saves == [] then !sv.kind.Settle? else Adjacent(saves[|saves| - 1], sv)
    ensures LegalHistory(cfg, origin, saves + [sv])
    ensures Latest(origin, saves + [sv]) == sv.record
  {
    assert (saves + [sv])[..|saves|] == saves;
  }

  /** A save by runner r, landing or not, keeps the invariant. */
  lemma CasKeepsInv<C>(cfg: Config, s: State<C>, r: nat, cur: SagaRecord<C>, next: SagaRecord<C>, kind: Kind<C>)
    requires Inv(cfg, s) && CopyOk(cfg, s, cur)
    requires LegalSave(cfg, cur, Save(r, s.now, kind, next.Bump()))
    requires cur.version == s.rec.value.version && kind.Settle? ==> HoldsClaim(s, r, kind.step)
    requires next.version == cur.version
    ensures Inv(cfg, Cas(s, r, cur, next, kind))
  {
    var s' := Cas(s, r, cur, next, kind);
    if cur.version == s.rec.value.version {
      var sv := Save(r, s.now, kind, next.Bump());
      LegalSaveKeepsWellFormed(cfg, cur, sv);
      LegalHistoryExtends(cfg, s.origin.value, s.saves, sv);
      SaverPcOk(cfg, s, r, cur, next, kind);
      forall q: nat ensures PcOk(cfg, s', q, s'.PcOf(q)) {
        if q != r { PcAfterSave(cfg, s, s', q, s.PcOf(q)); }
      }
    } else {
      forall q: nat ensures PcOk(cfg, s', q, s'.PcOf(q)) {
        if q != r { PcFrame(cfg, s, s', q, s.PcOf(q)); }
      }
    }
  }

  /** The saver itself continues from the record it has just stored. */
  lemma SaverPcOk<C>(cfg: Config, s: State<C>, r: nat, cur: SagaRecord<C>, next: SagaRecord<C>, kind: Kind<C>)
    requires cfg.Valid() && CopyOk(cfg, s, cur) && cur.version == s.rec.value.version
    requires LegalSave(cfg, cur, Save(r, s.now, kind, next.Bump())) && next.version == cur.version
    ensures var s' := Cas(s, r, cur, next, kind);
            PcOk(cfg, s', r, s'.PcOf(r))
  {
    LegalSaveKeepsWellFormed(cfg, cur, Save(r, s.now, kind, next.Bump()));
  }

  lemma StepKeepsInv<C>(cfg: Config, s: State<C>, e: Event<C>)
    requires Inv(cfg, s) && Step(cfg, s, e).Some?
    ensures Inv(cfg, Step(cfg, s, e).value)
  {
    match e
    case SaveClaim(r, stamp) =>
      var Claiming(cur, step, checkedAt) := s.PcOf(r);
      assert PcOk(cfg, s, r, s.PcOf(r));
      CasKeepsInv(cfg, s, r, cur, Claimed(cfg, cur, step, stamp), Claim(step));
    case SaveSettled(r) =>
      var Settling(cur, step, o) := s.PcOf(r);
      assert PcOk(cfg, s, r, s.PcOf(r));
      CasKeepsInv(cfg, s, r, cur, Settled(cur, step, o), Settle(step, o));
    case SaveFinal(r) =>
      var AtLoop(cur) := s.PcOf(r);
      assert PcOk(cfg, s, r, s.PcOf(r));
      CasKeepsInv(cfg, s, r, cur, Final(cur), Finish);
    case Tick(to) =>
      var s' := s.(now := to);
      forall q: nat ensures PcOk(cfg, s', q, s'.PcOf(q)) {
        PcFrame(cfg, s, s', q, s.PcOf(q));
      }
    case Run(r, orderId, context) =>
      if s.rec.None? {
        CreationKeepsInv(cfg, s, e);
      } else {
        GoKeepsInv(cfg, s, r, if s.rec.value.Terminal() then Idle else AtLoop(s.rec.value));
      }
    case Resume(r) =>
      GoKeepsInv(cfg, s, r, if s.rec.value.Terminal() then Idle else AtLoop(s.rec.value));
    case CheckLease(r) =>
      assert PcOk(cfg, s, r, s.PcOf(r));
      var cur := s.PcOf(r).cur;
      var step := NextStep(cfg, cur).value;
      GoKeepsInv(cfg, s, r, if LeaseBlocks(cur, step, s.now) then Idle else Claiming(cur, step, s.now));
    case Finished(r, o) =>
      assert PcOk(cfg, s, r, s.PcOf(r));
      GoKeepsInv(cfg, s, r, Settling(s.PcOf(r).cur, s.PcOf(r).step, o));
    case Crash(r) =>
      GoKeepsInv(cfg, s, r, Idle);
  }

  lemma GoKeepsInv<C>(cfg: Config, s: State<C>, r: nat, pc: Pc<C>)
    requires Inv(cfg, s) && PcOk(cfg, s, r, pc)
    ensures Inv(cfg, s.Go(r, pc))
  {
    var s' := s.Go(r, pc);
    forall q: nat ensures PcOk(cfg, s', q, s'.PcOf(q)) {
      PcFrame(cfg, s, s', q, if q == r then pc else s.PcOf(q));
    }
  }

  lemma CreationKeepsInv<C>(cfg: Config, s: State<C>, e: Event<C>)
    requires Inv(cfg, s) && e.Run? && s.rec.None? && Step(cfg, s, e).Some?
    ensures Inv(cfg, Step(cfg, s, e).value)
  {
    var s' := Step(cfg, s, e).value;
    forall q: nat ensures PcOk(cfg, s', q, s'.PcOf(q)) {
      assert PcOk(cfg, s, q, s.PcOf(q));
    }
  }

  /** Every state that any interleaving of any runners reaches satisfies the invariant. */
  lemma {:induction false} ReplayKeepsInv<C>(cfg: Config, s: State<C>, trace: seq<Event<C>>)
    requires Inv(cfg, s) && Replay(cfg, s, trace).Some?
    ensures Inv(cfg, Replay(cfg, s, trace).value)
    decreases |trace|
  {
    if trace != [] {
      StepKeepsInv(cfg, s, trace[0]);
      ReplayKeepsInv(cfg, Step(cfg, s, trace[0]).value, trace[1..]);
    }
  }
}
