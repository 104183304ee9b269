/** The coordinator and its store as the objects they are. Between any two of its atomic actions a
    runner is interrupted by arbitrary steps of the other runners; every action it takes itself is
    one step of the machine, so whatever holds of all interleavings holds of these methods. */
module SagaCoordinator {
  import opened Common
  import opened SagaMachine
  import opened SagaInvariant
  import opened SagaTheorems

  datatype SagaError = NotFound | ConcurrencyConflict | CompensationThrew(message: string)

  class InMemorySagaStore<C> {
    var records: map<string, SagaRecord<C>>

    constructor ()
      ensures records == map[]
    {
      records := map[];
    }

    method CreateIfNotExists(record: SagaRecord<C>) returns (stored: SagaRecord<C>)
      modifies this
      ensures record.sagaId in records && stored == records[record.sagaId]
      ensures records == if record.sagaId in old(records) then old(records)
                         else old(records)[record.sagaId := record.(version := 0)]
    {
      if record.sagaId in records {
        return records[record.sagaId];
      }
      stored := record.(version := 0);
      records := records[record.sagaId := stored];
    }

    method Get(sagaId: string) returns (found: Option<SagaRecord<C>>)
      ensures found == if sagaId in records then Some(records[sagaId]) else None
    {
      if sagaId in records {
        return Some(records[sagaId]);
      }
      return None;
    }

    /** Compare-and-swap on the version; every other saga's record stays as it is. */
    method Save(record: SagaRecord<C>) returns (saved: Result<SagaRecord<C>, SagaError>)
      modifies this
      ensures if record.sagaId in old(records) && old(records)[record.sagaId].version == record.version
              then saved == Ok(record.Bump()) && records == old(records)[record.sagaId := record.Bump()]
              else saved == Err(ConcurrencyConflict) && records == old(records)
    {
      if record.sagaId !in records || records[record.sagaId].version != record.version {
        return Err(ConcurrencyConflict);
      }
      var updated := record.(version := record.version + 1);
      records := records[record.sagaId := updated];
      return Ok(updated);
    }

    /** Exactly the sagas that are still running or compensating. */
    method ListIncomplete() returns (incomplete: seq<SagaRecord<C>>)
      ensures forall rec :: rec in incomplete <==>
                !rec.Terminal() && exists id :: id in records && records[id] == rec
    {
      incomplete := [];
      var left := records.Keys;
      while left != {}
        invariant left <= records.Keys
        invariant forall rec :: rec in incomplete <==>
                    !rec.Terminal() && exists id :: id in records.Keys - left && records[id] == rec
        decreases left
      {
        var id :| id in left;
        if records[id].status.Running? || records[id].status.Compensating? {
          incomplete := incomplete + [records[id]];
        }
        ghost var before := records.Keys - left;
        left := left - {id};
        assert records.Keys - left == before + {id};
      }
      assert records.Keys - left == records.Keys;
    }
  }

  class SagaCoordinator<C(==)> {
    const cfg: Config
    const runner: nat
    const store: InMemorySagaStore<C>
    /** What the awaited actions and compensations come back with, per call time. */
    const action: (string, C, int) -> Outcome<C>
    const compensation: (string, C, string, int) -> Outcome<C>
    /** What everybody else does at the i-th interruption; arbitrary. */
    const others: nat -> seq<Event<C>>
    var interruptions: nat
    var clock: int
    var world: State<C>
    ghost var trace: seq<Event<C>>
    ghost const born: int

    constructor (cfg: Config, runner: nat, store: InMemorySagaStore<C>, clock: int,
                 action: (string, C, int) -> Outcome<C>, compensation: (string, C, string, int) -> Outcome<C>,
                 others: nat -> seq<Event<C>>)
      requires cfg.Valid() && cfg.sagaId !in store.records
      ensures Valid() && this.cfg == cfg && this.runner == runner && this.store == store
      ensures trace == [] && world.PcOf(runner).Idle?
    {
      this.cfg, this.runner, this.store := cfg, runner, store;
      this.action, this.compensation, this.others := action, compensation, others;
      this.interruptions, this.clock, this.world := 0, clock, Start(clock);
      this.trace, this.born := [], clock;
    }

    /** The world is what replaying the trace gives, and store and clock agree with it. */
    ghost predicate Valid()
      reads this, store
    {
      && cfg.Valid()
      && Replay(cfg, Start<C>(born), trace) == Some(world)
      && clock == world.now
      && world.rec == (if cfg.sagaId in store.records then Some(store.records[cfg.sagaId]) else None)
      && Handled(world.saves)
    }

    // ---- What was run for the results

    /** What a compensation is told. */
    function Reason(rec: SagaRecord<C>): string {
      if rec.error.Some? then rec.error.value else "Saga failed"
    }

    /** The outcome is what the step's action gives for the record's context at time t; when compensating, what
        its compensation gives for context and error. */
    ghost predicate FromHandler(rec: SagaRecord<C>, step: string, outcome: Outcome<C>, t: int) {
      outcome == if rec.status.Compensating? then compensation(step, rec.context, Reason(rec), t)
                 else action(step, rec.context, t)
    }

    /** The outcome was got from the handler at some time between the two. */
    ghost predicate GotBetween(rec: SagaRecord<C>, step: string, outcome: Outcome<C>, from: int, to: int) {
      exists t :: from <= t <= to && FromHandler(rec, step, outcome, t)
    }

    /** The j-th save stores a result of this runner: it came from the right handler, run on the record as
        claimed, at some time between the claim and the save. */
    ghost predicate HandledAt(saves: seq<Save<C>>, j: nat)
      requires j < |saves| && saves[j].kind.Settle?
    {
      && 0 < j
      && GotBetween(saves[j - 1].record, saves[j].kind.step, saves[j].kind.outcome, saves[j - 1].at, saves[j].at)
    }

    ghost predicate Handled(saves: seq<Save<C>>) {
      forall j :: 0 <= j < |saves| && saves[j].kind.Settle? && saves[j].runner == runner ==> HandledAt(saves, j)
    }

    lemma HandledGrows(saves: seq<Save<C>>, sv: Save<C>)
      requires Handled(saves)
      requires sv.kind.Settle? && sv.runner == runner ==> HandledAt(saves + [sv], |saves|)
      ensures Handled(saves + [sv])
    {
      var more := saves + [sv];
      forall j | 0 <= j < |more| && more[j].kind.Settle? && more[j].runner == runner ensures HandledAt(more, j) {
        if j < |saves| {
          assert HandledAt(saves, j);
          assert more[j - 1] == saves[j - 1] && more[j] == saves[j];
        }
      }
    }

    /** The claim that stored this record is in the history. */
    ghost predicate ClaimedAs(rec: SagaRecord<C>)
      reads this
    {
      0 < rec.version <= |world.saves| && world.saves[rec.version - 1].record == rec
      && world.saves[rec.version - 1].at <= clock
    }

    /** And this outcome was got for it since. */
    ghost predicate Ready(rec: SagaRecord<C>, step: string, outcome: Outcome<C>)
      reads this
    {
      ClaimedAs(rec) && GotBetween(rec, step, outcome, world.saves[rec.version - 1].at, clock)
    }

    /** A step of the clock or of another runner. */
    predicate Foreign(e: Event<C>) {
      e.Tick? || e.r != runner
    }

    /** Book one atomic action: append it to the trace and move the world on. */
    method Note(e: Event<C>)
      requires cfg.Valid() && Replay(cfg, Start<C>(born), trace) == Some(world)
      requires Step(cfg, world, e).Some? && Handled(world.saves)
      requires e.SaveSettled? && e.r == runner && Step(cfg, world, e).value.saves != world.saves ==>
                 Handled(Step(cfg, world, e).value.saves)
      modifies this`world, this`trace
      ensures Some(world) == Step(cfg, old(world), e) && old(world).saves <= world.saves && Handled(world.saves)
      ensures trace == old(trace) + [e] && Replay(cfg, Start<C>(born), trace) == Some(world)
    {
      ReplayAppend(cfg, Start<C>(born), trace, [e]);
      var next := Step(cfg, world, e).value;
      assert Replay(cfg, next, [e][1..]) == Some(next);
      StepSaves(cfg, world, e);
      if next.saves != world.saves && !(e.SaveSettled? && e.r == runner) {
        HandledGrows(world.saves, next.saves[|next.saves| - 1]);
      }
      world := next;
      trace := trace + [e];
    }

    /** What the invariant of the machine says about this runner. */
    lemma OwnPlace()
      requires Valid()
      ensures PcOk(cfg, world, runner, world.PcOf(runner))
      ensures world.rec.Some? ==> WellFormed(cfg, world.rec.value) && world.rec.value.version == |world.saves|
      ensures world.saves != [] ==> world.rec.Some? && world.saves[|world.saves| - 1].record == world.rec.value
      ensures world.saves != [] ==> world.saves[|world.saves| - 1].at <= clock
    {
      ReplayKeepsInv(cfg, Start<C>(born), trace);
      if world.rec.Some? { VersionCounts(cfg, world.origin.value, world.saves); }
    }

    /** Whatever this runner stored as a result came from the right handler. */
    lemma OwnResultsAreHandled(j: nat)
      requires Valid() && j < |world.saves| && world.saves[j].kind.Settle? && world.saves[j].runner == runner
      ensures HandledAt(world.saves, j)
    {
    }

    /** One step of somebody else, if it is possible. */
    method Other(e: Event<C>)
      requires Valid() && Foreign(e)
      modifies this`world, this`trace, this`clock, store
      ensures Valid() && old(trace) <= trace && old(clock) <= clock
      ensures world.PcOf(runner) == old(world).PcOf(runner) && old(world).saves <= world.saves
      ensures old(world).rec.Some? ==> world.rec.Some?
    {
      if Step(cfg, world, e).Some? {
        ForeignStep(e);
        Note(e);
        clock := world.now;
        if world.rec.Some? {
          store.records := store.records[cfg.sagaId := world.rec.value];
        }
      }
    }

    lemma ForeignStep(e: Event<C>)
      requires Valid() && Foreign(e) && Step(cfg, world, e).Some?
      ensures var next := Step(cfg, world, e).value;
              && next.PcOf(runner) == world.PcOf(runner) && world.now <= next.now
              && (world.rec.Some? ==> next.rec.Some?)
    {
    }

    /** Any number of steps of others; this runner's place does not move. */
    method Interrupted()
      requires Valid()
      modifies this, store
      ensures Valid() && old(trace) <= trace && old(clock) <= clock
      ensures world.PcOf(runner) == old(world).PcOf(runner) && old(world).saves <= world.saves
      ensures old(world).rec.Some? ==> world.rec.Some?
      ensures PcOk(cfg, world, runner, world.PcOf(runner)) && interruptions == old(interruptions) + 1
      ensures others(old(interruptions)) == [] ==> world == old(world) && clock == old(clock)
    {
      var events := others(interruptions);
      interruptions := interruptions + 1;
      for i := 0 to |events|
        invariant Valid() && old(trace) <= trace && old(clock) <= clock
        invariant world.PcOf(runner) == old(world).PcOf(runner) && old(world).saves <= world.saves
        invariant old(world).rec.Some? ==> world.rec.Some?
        invariant interruptions == old(interruptions) + 1
        invariant i == 0 ==> world == old(world) && clock == old(clock)
      {
        if Foreign(events[i]) {
          Other(events[i]);
        }
      }
      OwnPlace();
    }

    /** Nobody else does anything from here on. */
    ghost predicate Alone()
      reads this
    {
      forall i :: interruptions <= i ==> others(i) == []
    }

    /** The runner has the stored record in hand and no live lease is in its way. */
    ghost predicate Unhindered(rec: SagaRecord<C>)
      reads this
    {
      world.rec == Some(rec) && (rec.claimExpiresAt.Some? ==> rec.claimExpiresAt.value <= clock)
    }

    /** The saga is over, or a compensation threw. */
    ghost predicate Ended(res: Result<SagaRecord<C>, SagaError>) {
      match res
      case Ok(rec) => rec.Terminal()
      case Err(e) => e.CompensationThrew?
    }

    method Run(orderId: string, initialContext: C) returns (res: Result<SagaRecord<C>, SagaError>)
      requires Valid() && world.PcOf(runner).Idle?
      modifies this, store
      ensures Valid() && old(trace) <= trace && world.PcOf(runner).Idle?
      ensures Truthful(res)
      ensures !res.Err? || res.error != NotFound
      ensures old(Alone()) && (old(world.rec).Some? ==> old(Unhindered(world.rec.value))) ==> Ended(res)
    {
      Interrupted();
      var offered := SagaRecord(cfg.sagaId, orderId, Running, [], initialContext, Some(cfg.order[0]), None, 0, None);
      var record := store.CreateIfNotExists(offered);
      Note(Event.Run(runner, orderId, initialContext));
      if record.status.Completed? || record.status.Failed? {
        return Ok(record);
      }
      res := Advance(record);
    }

    method Resume() returns (res: Result<SagaRecord<C>, SagaError>)
      requires Valid() && world.PcOf(runner).Idle?
      modifies this, store
      ensures Valid() && old(trace) <= trace && world.PcOf(runner).Idle?
      ensures Truthful(res)
      ensures old(world.rec.Some?) ==> !res.Err? || res.error != NotFound
      ensures old(Alone()) && old(world.rec).Some? && old(Unhindered(world.rec.value)) ==> Ended(res)
    {
      Interrupted();
      var record := store.Get(cfg.sagaId);
      if record.None? {
        return Err(NotFound);
      }
      Note(Event.Resume(runner));
      if record.value.status.Completed? || record.value.status.Failed? {
        return Ok(record.value);
      }
      res := Advance(record.value);
    }

    /** A terminal record handed to the caller is the stored one, and a caller that gets any other
        record backed off from a saga that exists. */
    ghost predicate Truthful(res: Result<SagaRecord<C>, SagaError>)
      reads this
    {
      match res
      case Ok(rec) => world.rec.Some? && (rec.Terminal() ==> world.rec == Some(rec))
      case Err(NotFound) => true
      case Err(_) => world.rec.Some?
    }

    method Advance(record: SagaRecord<C>) returns (res: Result<SagaRecord<C>, SagaError>)
      requires Valid() && world.PcOf(runner) == AtLoop(record)
      modifies this, store
      ensures Valid() && old(trace) <= trace && world.PcOf(runner).Idle?
      ensures Truthful(res) && (res.Err? ==> res.error != NotFound)
      ensures old(Alone()) && old(Unhindered(record)) ==> Ended(res)
    {
      OwnPlace();
      if record.status.Compensating? {
        res := Compensate(record, if record.error.Some? then record.error.value else "Saga failed");
        return;
      }
      var current := record;
      var remaining := Excluding(cfg.order, current.completedSteps);
      var i := 0;
      while i < |remaining|
        invariant 0 <= i <= |remaining|
        invariant Valid() && old(trace) <= trace
        invariant world.PcOf(runner) == AtLoop(current) && current.status.Running? && WellFormed(cfg, current)
        invariant remaining[i..] == Excluding(cfg.order, current.completedSteps)
        invariant old(Alone()) && old(Unhindered(record)) ==> Alone() && Unhindered(current)
      {
        var step := remaining[i];
        assert NextStep(cfg, current) == Some(step) by { assert remaining[i..][0] == step; }
        var next;
        next, res := DoStep(current, step);
        if next.None? {
          return;
        }
        OneStepLess(current, next.value, remaining, i);
        current := next.value;
        i := i + 1;
      }
      assert NextStep(cfg, current).None? by { assert remaining[i..] == []; }
      res := SaveFinal(current, current.(status := Completed, currentStep := None, claimExpiresAt := None));
    }

    /** One step forward, or the end of the call: claimed by somebody else, overtaken, or turned round because the
        action threw. */
    method DoStep(record: SagaRecord<C>, step: string)
      returns (next: Option<SagaRecord<C>>, res: Result<SagaRecord<C>, SagaError>)
      requires Valid() && world.PcOf(runner) == AtLoop(record) && NextStep(cfg, record) == Some(step)
      requires record.status.Running? && WellFormed(cfg, record)
      modifies this, store
      ensures Valid() && old(trace) <= trace
      ensures next.None? ==> world.PcOf(runner).Idle? && Truthful(res) && (res.Err? ==> res.error != NotFound)
      ensures next.Some? ==>
                && world.PcOf(runner) == AtLoop(next.value) && WellFormed(cfg, next.value)
                && next.value.status.Running? && next.value.completedSteps == record.completedSteps + [step]
      ensures old(Alone()) && old(Unhindered(record)) ==>
                if next.Some? then Alone() && Unhindered(next.value) else Ended(res)
    {
      next, res := None, Ok(record);
      var current, outcome := ClaimAndAwait(record, step, "");
      if current.None? {
        return;
      }
      if outcome.Threw? {
        res := StartCompensating(current.value, step, outcome);
        return;
      }
      var saved := SaveDone(current.value, step, outcome);
      if saved.Err? {
        return None, Err(saved.error);
      }
      return Some(saved.value), saved;
    }

    /** The action threw: note why, turn round, and undo what is recorded. */
    method StartCompensating(current: SagaRecord<C>, step: string, outcome: Outcome<C>)
        returns (res: Result<SagaRecord<C>, SagaError>)
      requires Valid() && world.PcOf(runner) == Settling(current, step, outcome)
      requires current.status.Running? && outcome.Threw? && Ready(current, step, outcome)
      modifies this, store
      ensures Valid() && old(trace) <= trace && world.PcOf(runner).Idle?
      ensures Truthful(res) && (res.Err? ==> res.error != NotFound)
      ensures old(Alone()) && old(world.rec) == Some(current) ==> Ended(res)
    {
      var saved := SaveResult(current, step, outcome,
        current.(status := Compensating, error := Some(outcome.message), claimExpiresAt := None));
      if saved.Err? {
        return Err(saved.error);
      }
      res := Compensate(saved.value, outcome.message);
    }

    /** One step undone, or the end of the call: claimed by somebody else, overtaken, or the compensation threw. */
    method UndoStep(record: SagaRecord<C>, step: string, error: string)
      returns (next: Option<SagaRecord<C>>, res: Result<SagaRecord<C>, SagaError>)
      requires Valid() && world.PcOf(runner) == AtLoop(record) && NextStep(cfg, record) == Some(step)
      requires record.status.Compensating? && WellFormed(cfg, record) && error == Reason(record)
      modifies this, store
      ensures Valid() && old(trace) <= trace
      ensures next.None? ==> world.PcOf(runner).Idle? && Truthful(res) && (res.Err? ==> res.error != NotFound)
      ensures next.Some? ==>
                && world.PcOf(runner) == AtLoop(next.value) && WellFormed(cfg, next.value)
                && next.value.status.Compensating? && next.value.error == record.error
                && next.value.completedSteps == Excluding(record.completedSteps, [step])
      ensures old(Alone()) && old(Unhindered(record)) ==>
                if next.Some? then Alone() && Unhindered(next.value) else Ended(res)
    {
      next, res := None, Ok(record);
      var current, outcome := ClaimAndAwait(record, step, error);
      if current.None? {
        return;
      }
      if outcome.Threw? {
        res := ReleaseLease(current.value, step, outcome);
        return;
      }
      var saved := SaveUndone(current.value, step, outcome);
      if saved.Err? {
        return None, Err(saved.error);
      }
      return Some(saved.value), saved;
    }

    /** The compensation threw: give the lease back and rethrow. */
    method ReleaseLease(current: SagaRecord<C>, step: string, outcome: Outcome<C>)
        returns (res: Result<SagaRecord<C>, SagaError>)
      requires Valid() && world.PcOf(runner) == Settling(current, step, outcome)
      requires current.status.Compensating? && outcome.Threw? && Ready(current, step, outcome)
      modifies this, store
      ensures Valid() && old(trace) <= trace && world.PcOf(runner).Idle?
      ensures res == Err(ConcurrencyConflict) || res == Err(CompensationThrew(outcome.message))
      ensures Truthful(res) && (old(world.rec) == Some(current) ==> Ended(res))
    {
      var saved := SaveResult(current, step, outcome, current.(claimExpiresAt := None));
      return Err(if saved.Err? then saved.error else CompensationThrew(outcome.message));
    }

    method Compensate(record: SagaRecord<C>, error: string) returns (res: Result<SagaRecord<C>, SagaError>)
      requires Valid() && world.PcOf(runner) == AtLoop(record) && record.status.Compensating? && error == Reason(record)
      modifies this, store
      ensures Valid() && old(trace) <= trace && world.PcOf(runner).Idle?
      ensures Truthful(res) && (res.Err? ==> res.error != NotFound)
      ensures old(Alone()) && old(Unhindered(record)) ==> Ended(res)
    {
      OwnPlace();
      var current := record;
      var toCompensate := Reversed(current.completedSteps);
      var i := 0;
      while i < |toCompensate|
        invariant 0 <= i <= |toCompensate|
        invariant Valid() && old(trace) <= trace
        invariant world.PcOf(runner) == AtLoop(current) && current.status.Compensating? && error == Reason(current)
        invariant WellFormed(cfg, current)
        invariant toCompensate[i..] == Reversed(current.completedSteps)
        invariant old(Alone()) && old(Unhindered(record)) ==> Alone() && Unhindered(current)
      {
        var step := toCompensate[i];
        assert NextStep(cfg, current) == Some(step) by { assert toCompensate[i..][0] == step; }
        var next;
        next, res := UndoStep(current, step, error);
        if next.None? {
          return;
        }
        OneUndoneLess(current, next.value, toCompensate, i);
        current := next.value;
        i := i + 1;
      }
      assert NextStep(cfg, current).None? by { assert toCompensate[i..] == []; }
      res := SaveFinal(current, current.(status := Failed, currentStep := None, claimExpiresAt := None));
    }

    /** Claim the step and, if that worked, wait for its action or compensation. */
    method ClaimAndAwait(record: SagaRecord<C>, step: string, error: string)
      returns (claimed: Option<SagaRecord<C>>, outcome: Outcome<C>)
      requires Valid() && world.PcOf(runner) == AtLoop(record) && NextStep(cfg, record) == Some(step)
      requires record.status.Compensating? ==> error == Reason(record)
      modifies this, store
      ensures Valid() && old(trace) <= trace && world.rec.Some?
      ensures claimed.None? ==> world.PcOf(runner).Idle?
      ensures claimed.Some? ==>
                && world.PcOf(runner) == Settling(claimed.value, step, outcome) && WellFormed(cfg, claimed.value)
                && Ready(claimed.value, step, outcome)
                && claimed.value == record.(currentStep := Some(step), version := record.version + 1,
                                            claimExpiresAt := claimed.value.claimExpiresAt)
      ensures old(Alone()) && old(Unhindered(record)) ==> claimed.Some? && Alone() && world.rec == Some(claimed.value)
    {
      claimed := ClaimStep(record, step);
      if claimed.None? {
        return None, Done(record.context);
      }
      ghost var claim := world.saves[claimed.value.version - 1];
      outcome := Await(claimed.value, step, error);
      assert world.saves[claimed.value.version - 1] == claim;
    }

    /** The claim, or None when a live lease or a conflicting save makes this runner back off. */
    method ClaimStep(record: SagaRecord<C>, step: string) returns (claimed: Option<SagaRecord<C>>)
      requires Valid() && world.PcOf(runner) == AtLoop(record) && NextStep(cfg, record) == Some(step)
      modifies this, store
      ensures Valid() && old(trace) <= trace && world.rec.Some?
      ensures claimed.None? ==> world.PcOf(runner).Idle?
      ensures claimed.Some? ==>
                && world.PcOf(runner) == Acting(claimed.value, step) && ClaimedAs(claimed.value)
                && claimed.value == record.(currentStep := Some(step), version := record.version + 1,
                                            claimExpiresAt := claimed.value.claimExpiresAt)
                && claimed.value.claimExpiresAt.Some?
                && old(clock) + cfg.lease <= claimed.value.claimExpiresAt.value <= clock + cfg.lease
      ensures old(Alone()) && old(Unhindered(record)) ==> claimed.Some? && Alone() && world.rec == Some(claimed.value)
    {
      var leased := LeaseIsLive(record, step);
      if leased {
        return None;
      }
      Interrupted();
      var stamp := clock;
      Interrupted();
      claimed := SaveClaimed(record, step, stamp);
    }

    method LeaseIsLive(record: SagaRecord<C>, step: string) returns (leased: bool)
      requires Valid() && world.PcOf(runner) == AtLoop(record) && NextStep(cfg, record) == Some(step)
      modifies this, store
      ensures Valid() && old(trace) <= trace && old(clock) <= clock && world.rec.Some?
      ensures leased <==> LeaseBlocks(record, step, clock)
      ensures world.PcOf(runner) == if leased then Idle else Claiming(record, step, clock)
      ensures old(Alone()) && old(Unhindered(record)) ==> Alone() && Unhindered(record)
    {
      Interrupted();
      leased := record.currentStep == Some(step) && record.claimExpiresAt.Some? && record.claimExpiresAt.value > clock;
      Note(CheckLease(runner));
    }

    method SaveClaimed(record: SagaRecord<C>, step: string, stamp: int) returns (claimed: Option<SagaRecord<C>>)
      requires Valid() && world.PcOf(runner).Claiming? && world.PcOf(runner).checkedAt <= stamp <= clock
      requires world.PcOf(runner).cur == record && world.PcOf(runner).step == step
      modifies this, store
      ensures Valid() && old(trace) <= trace && world.rec.Some?
      ensures claimed.None? ==> world.PcOf(runner).Idle?
      ensures claimed.Some? ==>
                && world.PcOf(runner) == Acting(claimed.value, step) && ClaimedAs(claimed.value)
                && claimed.value == Claimed(cfg, record, step, stamp).Bump()
                && claimed.value.claimExpiresAt == Some(stamp + cfg.lease)
      ensures clock == old(clock) && interruptions == old(interruptions)
      ensures old(world.rec) == Some(record) ==> claimed.Some? && world.rec == Some(claimed.value)
    {
      OwnPlace();
      var saved := store.Save(record.(currentStep := Some(step), claimExpiresAt := Some(stamp + cfg.lease)));
      Note(SaveClaim(runner, stamp));
      OwnPlace();
      return if saved.Err? then None else Some(saved.value);
    }

    /** The awaited action, or compensation when the saga is compensating; others go on meanwhile. */
    method Await(current: SagaRecord<C>, step: string, error: string) returns (outcome: Outcome<C>)
      requires Valid() && world.PcOf(runner) == Acting(current, step) && ClaimedAs(current)
      requires current.status.Compensating? ==> error == Reason(current)
      modifies this, store
      ensures Valid() && old(trace) <= trace
      ensures world.PcOf(runner) == Settling(current, step, outcome) && WellFormed(cfg, current) && world.rec.Some?
      ensures ClaimedAs(current) && old(world).saves <= world.saves
      ensures GotBetween(current, step, outcome, old(clock), clock)
      ensures old(Alone()) ==> Alone() && world.rec == old(world.rec)
    {
      Interrupted();
      ghost var t := clock;
      outcome := if current.status.Compensating? then compensation(step, current.context, error, clock)
                 else action(step, current.context, clock);
      Note(Finished(runner, outcome));
      Interrupted();
      assert FromHandler(current, step, outcome, t);
    }

    method SaveResult(current: SagaRecord<C>, step: string, outcome: Outcome<C>, next: SagaRecord<C>)
      returns (saved: Result<SagaRecord<C>, SagaError>)
      requires Valid() && world.PcOf(runner) == Settling(current, step, outcome)
      requires next == Settled(current, step, outcome) && Ready(current, step, outcome)
      modifies this, store
      ensures Valid() && old(trace) <= trace && world.rec.Some?
      ensures if saved.Ok? then saved.value == next.Bump()
                && world.PcOf(runner) == After(current, Settle(step, outcome), saved.value)
              else saved.error == ConcurrencyConflict && world.PcOf(runner).Idle?
      ensures saved.Ok? && world.PcOf(runner).AtLoop? ==> WellFormed(cfg, saved.value)
      ensures interruptions == old(interruptions)
      ensures old(world.rec) == Some(current) ==> saved.Ok? && world.rec == Some(saved.value)
    {
      OwnPlace();
      saved := store.Save(next);
      if saved.Ok? { ResultIsHandled(current, step, outcome); }
      Note(SaveSettled(runner));
      OwnPlace();
    }

    /** The save of this result, if it lands, comes right after the claim it was got for. */
    lemma ResultIsHandled(current: SagaRecord<C>, step: string, outcome: Outcome<C>)
      requires cfg.Valid() && Handled(world.saves) && Ready(current, step, outcome) && clock == world.now
      requires world.PcOf(runner) == Settling(current, step, outcome)
      requires world.rec.Some? && world.rec.value.version == current.version == |world.saves|
      ensures Step(cfg, world, SaveSettled(runner)).Some?
      ensures Handled(Step(cfg, world, SaveSettled(runner)).value.saves)
    {
      var next := Step(cfg, world, SaveSettled(runner)).value;
      var sv := next.saves[|world.saves|];
      assert next.saves == world.saves + [sv];
      assert HandledAt(world.saves + [sv], |world.saves|);
      HandledGrows(world.saves, sv);
    }

    /** The action succeeded: store its context and one more completed step. */
    method SaveDone(current: SagaRecord<C>, step: string, outcome: Outcome<C>)
        returns (saved: Result<SagaRecord<C>, SagaError>)
      requires Valid() && world.PcOf(runner) == Settling(current, step, outcome)
      requires current.status.Running? && outcome.Done? && Ready(current, step, outcome)
      modifies this, store
      ensures Valid() && old(trace) <= trace && world.rec.Some?
      ensures saved.Ok? ==>
                && world.PcOf(runner) == AtLoop(saved.value) && WellFormed(cfg, saved.value)
                && saved.value.status.Running? && saved.value.context == outcome.context
                && saved.value.completedSteps == current.completedSteps + [step]
      ensures saved.Err? ==> saved.error == ConcurrencyConflict && world.PcOf(runner).Idle?
      ensures interruptions == old(interruptions)
      ensures old(world.rec) == Some(current) ==> saved.Ok? && Unhindered(saved.value)
    {
      saved := SaveResult(current, step, outcome,
        current.(context := outcome.context, completedSteps := current.completedSteps + [step],
            claimExpiresAt := None));
    }

    /** The compensation succeeded: store its context and drop the step. */
    method SaveUndone(current: SagaRecord<C>, step: string, outcome: Outcome<C>)
        returns (saved: Result<SagaRecord<C>, SagaError>)
      requires Valid() && world.PcOf(runner) == Settling(current, step, outcome)
      requires current.status.Compensating? && outcome.Done? && Ready(current, step, outcome)
      modifies this, store
      ensures Valid() && old(trace) <= trace && world.rec.Some?
      ensures saved.Ok? ==>
                && world.PcOf(runner) == AtLoop(saved.value) && WellFormed(cfg, saved.value)
                && saved.value.status.Compensating? && saved.value.context == outcome.context
                && saved.value.error == current.error
                && saved.value.completedSteps == Excluding(current.completedSteps, [step])
      ensures saved.Err? ==> saved.error == ConcurrencyConflict && world.PcOf(runner).Idle?
      ensures interruptions == old(interruptions)
      ensures old(world.rec) == Some(current) ==> saved.Ok? && Unhindered(saved.value)
    {
      saved := SaveResult(current, step, outcome,
        current.(context := outcome.context, completedSteps := Excluding(current.completedSteps, [step]),
            claimExpiresAt := None));
    }

    method SaveFinal(current: SagaRecord<C>, next: SagaRecord<C>) returns (saved: Result<SagaRecord<C>, SagaError>)
      requires Valid() && world.PcOf(runner) == AtLoop(current)
      requires NextStep(cfg, current).None? && next == Final(current)
      modifies this, store
      ensures Valid() && old(trace) <= trace && world.PcOf(runner).Idle?
      ensures Truthful(saved) && (saved.Err? ==> saved.error == ConcurrencyConflict)
      ensures saved.Ok? ==> saved.value.Terminal()
      ensures old(Alone()) && old(world.rec) == Some(current) ==> saved.Ok?
    {
      Interrupted();
      saved := store.Save(next);
      Note(Event.SaveFinal(runner));
    }

    /** Recording the step at the loop's index leaves the rest of the precomputed list to do. */
    lemma OneStepLess(before: SagaRecord<C>, after: SagaRecord<C>, remaining: seq<string>, i: nat)
      requires cfg.Valid() && WellFormed(cfg, before) && WellFormed(cfg, after) && i < |remaining|
      requires Excluding(cfg.order, before.completedSteps) == remaining[i..]
      requires after.completedSteps == before.completedSteps + [remaining[i]]
      ensures Excluding(cfg.order, after.completedSteps) == remaining[i + 1..]
    {
      var k := |before.completedSteps|;
      assert before.completedSteps == cfg.order[..k] && after.completedSteps == cfg.order[..k + 1];
      ExcludingPrefix(cfg.order, k);
      ExcludingPrefix(cfg.order, k + 1);
      assert remaining[i + 1..] == remaining[i..][1..] == cfg.order[k..][1..];
    }

    /** Undoing the step at the loop's index leaves the rest of the precomputed list to undo. */
    lemma OneUndoneLess(before: SagaRecord<C>, after: SagaRecord<C>, toCompensate: seq<string>, i: nat)
      requires cfg.Valid() && WellFormed(cfg, before) && i < |toCompensate|
      requires Reversed(before.completedSteps) == toCompensate[i..]
      requires after.completedSteps == Excluding(before.completedSteps, [toCompensate[i]])
      ensures Reversed(after.completedSteps) == toCompensate[i + 1..]
    {
      assert before.completedSteps == cfg.order[..|before.completedSteps|];
      ExcludingLast(before.completedSteps);
      assert toCompensate[i..][1..] == toCompensate[i + 1..];
    }
  }

  function Reversed(names: seq<string>): seq<string> {
    if names == [] then [] else [names[|names| - 1]] + Reversed(names[..|names| - 1])
  }
}
