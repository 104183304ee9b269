/** The saga protocol as a step machine: any number of runners share one durable record, every
    atomic action of the coordinator is one event, and events of different runners interleave
    freely. Saves are compare-and-swap on the record's version. */
module SagaMachine {
  import opened Common

  datatype Status = Running | Compensating | Completed | Failed

  /** The durable record. Creation and update stamps are not read by the protocol. */
  datatype SagaRecord<C> = SagaRecord(
    sagaId: string,
    orderId: string,
    status: Status,
    completedSteps: seq<string>,
    context: C,
    currentStep: Option<string>,
    error: Option<string>,
    version: nat,
    claimExpiresAt: Option<int>)
  {
    predicate Terminal() { status.Completed? || status.Failed? }
    function Bump(): SagaRecord<C> { this.(version := version + 1) }
  }

  /** One saga and what the constructor of its coordinator fixes: step order and lease length. */
  datatype Config = Config(sagaId: string, order: seq<string>, lease: int) {
    ghost predicate Valid() { order != [] && Distinct(order) && lease > 0 }
  }

  /** What an awaited action or compensation comes back with. */
  datatype Outcome<C> = Done(context: C) | Threw(message: string)

  /** Names of `names` that are not in `gone`, in order. */
  function Excluding(names: seq<string>, gone: seq<string>): seq<string> {
    if names == [] then []
    else (if names[0] in gone then [] else [names[0]]) + Excluding(names[1..], gone)
  }

  /** The record that run() offers to the store. */
  function Fresh<C>(cfg: Config, orderId: string, context: C): SagaRecord<C>
    requires cfg.order != []
  {
    SagaRecord(cfg.sagaId, orderId, Running, [], context, Some(cfg.order[0]), None, 0, None)
  }

  /** The step whose action (or, when compensating, whose compensation) comes next. */
  function NextStep<C>(cfg: Config, rec: SagaRecord<C>): Option<string> {
    if rec.status.Compensating? then
      if rec.completedSteps == [] then None else Some(rec.completedSteps[|rec.completedSteps| - 1])
    else
      var remaining := Excluding(cfg.order, rec.completedSteps);
      if remaining == [] then None else Some(remaining[0])
  }

  /** A live lease on the very step the runner wants to claim. */
  predicate LeaseBlocks<C>(rec: SagaRecord<C>, step: string, now: int) {
    rec.currentStep == Some(step) && rec.claimExpiresAt.Some? && rec.claimExpiresAt.value > now
  }

  function Claimed<C>(cfg: Config, rec: SagaRecord<C>, step: string, stamp: int): SagaRecord<C> {
    rec.(currentStep := Some(step), claimExpiresAt := Some(stamp + cfg.lease))
  }

  /** What is saved once the action or the compensation of `step` has come back. */
  function Settled<C>(rec: SagaRecord<C>, step: string, o: Outcome<C>): SagaRecord<C> {
    match (rec.status, o)
    case (Compensating, Done(c)) =>
      rec.(context := c, completedSteps := Excluding(rec.completedSteps, [step]), claimExpiresAt := None)
    case (Compensating, Threw(_)) => rec.(claimExpiresAt := None)
    case (_, Done(c)) =>
      rec.(context := c, completedSteps := rec.completedSteps + [step], claimExpiresAt := None)
    case (_, Threw(m)) => rec.(status := Compensating, error := Some(m), claimExpiresAt := None)
  }

  function Final<C>(rec: SagaRecord<C>): SagaRecord<C> {
    rec.(status := if rec.status.Compensating? then Failed else Completed,
         currentStep := None, claimExpiresAt := None)
  }

  /** Where a runner stands between two of its atomic actions. */
  datatype Pc<C> =
    | Idle
    | AtLoop(cur: SagaRecord<C>)
    | Claiming(cur: SagaRecord<C>, step: string, checkedAt: int)
    | Acting(cur: SagaRecord<C>, step: string)
    | Settling(cur: SagaRecord<C>, step: string, outcome: Outcome<C>)

  datatype Kind<C> = Claim(step: string) | Settle(step: string, outcome: Outcome<C>) | Finish

  /** One save that landed: who made it, when, what for, and the record as stored. */
  datatype Save<C> = Save(runner: nat, at: int, kind: Kind<C>, record: SagaRecord<C>)

  /** `origin` is the record as first created and `saves` all saves since; both are history. */
  datatype State<C> = State(
    rec: Option<SagaRecord<C>>,
    now: int,
    runners: map<nat, Pc<C>>,
    origin: Option<SagaRecord<C>>,
    saves: seq<Save<C>>)
  {
    function PcOf(r: nat): Pc<C> { if r in runners then runners[r] else Idle }
    function Go(r: nat, pc: Pc<C>): State<C> { this.(runners := runners[r := pc]) }
  }

  datatype Event<C> =
    | Tick(to: int)
    | Run(r: nat, orderId: string, context: C)
    | Resume(r: nat)
    | CheckLease(r: nat)
    | SaveClaim(r: nat, stamp: int)
    | Finished(r: nat, outcome: Outcome<C>)
    | SaveSettled(r: nat)
    | SaveFinal(r: nat)
    | Crash(r: nat)

  function Start<C>(now: int): State<C> { State(None, now, map[], None, []) }

  /** After reading a record: stop if the saga is over, otherwise enter the loop. */
  function Enter<C>(s: State<C>, r: nat, rec: SagaRecord<C>): State<C> {
    s.Go(r, if rec.Terminal() then Idle else AtLoop(rec))
  }

  /** Where a runner goes once its save of `cur` for `kind` has been stored as `stored`. A
      compensation that throws releases its lease and rethrows, which ends the call. */
  function After<C>(cur: SagaRecord<C>, kind: Kind<C>, stored: SagaRecord<C>): Pc<C> {
    match kind
    case Claim(step) => Acting(stored, step)
    case Settle(_, o) => if cur.status.Compensating? && o.Threw? then Idle else AtLoop(stored)
    case Finish => Idle
  }

  /** Compare-and-swap: lands only if the stored version is still the one the runner read. On a
      conflict the claim backs off and every other save throws; either way the call ends. */
  function Cas<C>(s: State<C>, r: nat, cur: SagaRecord<C>, next: SagaRecord<C>, kind: Kind<C>): State<C> {
    if s.rec.Some? && s.rec.value.version == cur.version then
      var stored := next.Bump();
      s.(rec := Some(stored), saves := s.saves + [Save(r, s.now, kind, stored)]).Go(r, After(cur, kind, stored))
    else s.Go(r, Idle)
  }

  /** One atomic action, or None when the event is not possible in `s`. */
  function Step<C>(cfg: Config, s: State<C>, e: Event<C>): Option<State<C>>
    requires cfg.order != []
  {
    match e
    case Tick(to) => if s.now <= to then Some(s.(now := to)) else None
    case Run(r, orderId, context) =>
      if !s.PcOf(r).Idle? then None
      else if s.rec.Some? then Some(Enter(s, r, s.rec.value))
      else
        var created := Fresh(cfg, orderId, context);
        Some(Enter(s.(rec := Some(created), origin := Some(created)), r, created))
    case Resume(r) =>
      if s.PcOf(r).Idle? && s.rec.Some? then Some(Enter(s, r, s.rec.value)) else None
    case CheckLease(r) =>
      (match s.PcOf(r)
       case AtLoop(cur) =>
         (match NextStep(cfg, cur)
          case None => None
          case Some(step) =>
            if LeaseBlocks(cur, step, s.now) then Some(s.Go(r, Idle))
            else Some(s.Go(r, Claiming(cur, step, s.now))))
       case _ => None)
    case SaveClaim(r, stamp) =>
      (match s.PcOf(r)
       case Claiming(cur, step, checkedAt) =>
         if checkedAt <= stamp <= s.now then Some(Cas(s, r, cur, Claimed(cfg, cur, step, stamp), Claim(step)))
         else None
       case _ => None)
    case Finished(r, o) =>
      (match s.PcOf(r)
       case Acting(cur, step) => Some(s.Go(r, Settling(cur, step, o)))
       case _ => None)
    case SaveSettled(r) =>
      (match s.PcOf(r)
       case Settling(cur, step, o) => Some(Cas(s, r, cur, Settled(cur, step, o), Settle(step, o)))
       case _ => None)
    case SaveFinal(r) =>
      (match s.PcOf(r)
       case AtLoop(cur) =>
         if NextStep(cfg, cur).None? then Some(Cas(s, r, cur, Final(cur), Finish)) else None
       case _ => None)
    case Crash(r) => Some(s.Go(r, Idle))
  }

  /** The state after a whole interleaving, or None when some event was not possible. */
  function Replay<C>(cfg: Config, s: State<C>, trace: seq<Event<C>>): Option<State<C>>
    requires cfg.order != []
    decreases |trace|
  {
    if trace == [] then Some(s)
    else match Step(cfg, s, trace[0])
      case None => None
      case Some(next) => Replay(cfg, next, trace[1..])
  }
}
