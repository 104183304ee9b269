/** The transaction queue and its spend counters as the objects they are: a request is checked and joins the
    queue, the one worker makes attempts and records what it sees to succeed. Whenever one of them waits, time
    passes, other requests come and go, other transactions of the account get in, and, for a request, the worker
    goes on; every action is one step of the spend machine, of the sequence machine, or of both, so whatever
    holds of all their runs holds of these methods. */
module TxQueue {
  import opened Common
  import opened Calendar
  import opened WeekKeys
  import opened RedisCounters
  import opened Attempts
  import Spend = SpendSpec
  import SpendTheorems
  import Numbers = SequenceAllocator

  /** The counters behind checkSpendLimit and recordSpend, for one user and wallet. Keys are those of `day`;
      the commands run at `now`. */
  class SpendCounters {
    const keys: Spend.Keys
    var redis: Redis

    constructor (user: string, wallet: string)
      ensures redis == map[] && keys == Spend.KeysOf(user, wallet)
    {
      keys, redis := Spend.KeysOf(user, wallet), map[];
    }

    method CheckSpendLimit(config: Option<Spend.Limits>, day: int, now: int, amount: int)
      returns (refused: Option<Spend.Reason>)
      ensures refused == Spend.CheckSpendLimit(config, Get(redis, keys.daily(day), now),
                Get(redis, keys.weekly(day), now), Get(redis, keys.lifetime, now), amount)
    {
      if config.None? { return None; }
      var limits := config.value;
      if limits.perTransaction.Some? && amount > limits.perTransaction.value { return Some(Spend.PerTransaction); }
      var dailySpend := Get(redis, keys.daily(day), now);
      var weeklySpend := Get(redis, keys.weekly(day), now);
      var lifetimeSpend := Get(redis, keys.lifetime, now);
      if limits.daily.Some? && dailySpend + amount > limits.daily.value { return Some(Spend.Daily); }
      if limits.weekly.Some? && weeklySpend + amount > limits.weekly.value { return Some(Spend.Weekly); }
      if limits.lifetime.Some? && lifetimeSpend + amount > limits.lifetime.value { return Some(Spend.Lifetime); }
      return None;
    }

    method RecordSpend(day: int, now: int, amount: int)
      modifies this`redis
      ensures redis == Spend.RecordSpend(old(redis), keys.daily(day), keys.weekly(day), keys.lifetime, now, amount)
    {
      var dailyKey, weeklyKey, lifetimeKey := keys.daily(day), keys.weekly(day), keys.lifetime;
      redis := IncrBy(redis, dailyKey, now, amount);
      if redis[dailyKey].value == amount {
        redis := Expire(redis, dailyKey, now, 172800);
      }
      redis := IncrBy(redis, weeklyKey, now, amount);
      if redis[weeklyKey].value == amount {
        redis := Expire(redis, weeklyKey, now, 691200);
      }
      redis := IncrBy(redis, lifetimeKey, now, amount);
    }
  }

  /** What may happen during a wait. */
  datatype Outside = Wait(to: int) | Spending(e: Spend.Event) | Numbering(n: Numbers.Event)

  /** Who waits: the worker, or the request with that check. */
  datatype Caller = Worker | Request(c: nat)

  predicate IsCheck(e: Spend.Event) { e.Check? || e.Read? || e.Abandon? }

  /** Nobody else does the caller's own part. */
  predicate Foreign(caller: Caller, e: Spend.Event) {
    match caller
    case Worker => IsCheck(e)
    case Request(c) => !e.Tick? && (IsCheck(e) ==> e.c != c)
  }

  predicate ForeignNumber(caller: Caller, n: Numbers.Event) {
    n.Foreign? || (caller.Request? && !n.Tick?)
  }

  /** A transaction the ledger never sees. */
  function Refused(): Network {
    Network(BadSequence, Absent, false, seq(POLLS, _ => NotFound), false)
  }

  type Plausibly = net: Network | Plausible(net) witness Refused()

  class TxQueue {
    const config: Option<Spend.Limits>
    const counters: SpendCounters
    /** What the network does with the n-th attempt; arbitrary but for reporting nothing that did not happen. */
    const network: nat -> Plausibly
    /** What happens at the n-th wait; arbitrary. */
    const outside: nat -> seq<Outside>
    const setup: Spend.Setup
    var cache: Option<Numbers.Cached>
    var ledger: nat
    var clock: int
    var checks: map<nat, Spend.InFlight>
    var jobs: seq<Spend.Job>
    var nextId: nat
    var attempts: nat
    var waits: nat
    var spend: Spend.State
    var numbers: Numbers.State
    ghost var spendRun: seq<Spend.State>
    ghost var spendTrace: seq<Spend.Event>
    ghost var numberTrace: seq<Numbers.Event>
    ghost const born: int
    ghost const firstLedger: nat

    constructor (config: Option<Spend.Limits>, counters: SpendCounters, network: nat -> Plausibly,
                 outside: nat -> seq<Outside>, ledger: nat, clock: int)
      requires counters.redis == map[] && Modern(DayOf(clock))
      ensures Valid() && this.counters == counters && jobs == [] && checks == map[] && numbers.worker.Idle?
    {
      this.config, this.counters := config, counters;
      this.network, this.outside := network, outside;
      this.cache, this.ledger, this.clock, this.checks, this.jobs := None, ledger, clock, map[], [];
      this.nextId, this.attempts, this.waits := 0, 0, 0;
      this.spend, this.spendRun, this.spendTrace := Spend.Start(clock), [Spend.Start(clock)], [];
      this.numbers, this.numberTrace := Numbers.Start(ledger, clock), [];
      this.setup := Spend.Setup(counters.keys, config);
      this.born, this.firstLedger := clock, ledger;
    }

    /** Both machines' states are what replaying their traces gives, and the fields agree with them. */
    ghost predicate Valid()
      reads this, counters
    {
      && Ours() && Traced()
      && spend.redis == counters.redis && spend.pending == jobs && spend.checks == checks && spend.nextId == nextId
      && spend.now == clock
      && numbers.ledger == ledger && numbers.cache == cache && numbers.now == clock
    }

    ghost predicate Ours() {
      setup == Spend.Setup(counters.keys, config) && Modern(DayOf(born))
    }

    /** Whatever holds of every run of the two machines holds here. */
    lemma Reaches(user: string, wallet: string)
      requires Valid() && counters.keys == Spend.KeysOf(user, wallet)
      ensures SpendTheorems.Reachable(setup, spend) && Numbers.Reachable(numbers)
    {
      Spend.KeysTellApart(user, wallet);
      SpendTheorems.RunIsReachable(setup, born, spendRun, spendTrace);
    }

    ghost predicate Traced()
      reads this
    {
      && SpendTheorems.IsRun(setup, born, spendRun, spendTrace) && spendRun[|spendTrace|] == spend
      && Numbers.Replay(Numbers.Start(firstLedger, born), numberTrace) == Some(numbers)
    }

    method NoteSpend(e: Spend.Event)
      requires Traced() && Spend.Step(setup, spend, e).Some?
      modifies this`spend, this`spendRun, this`spendTrace
      ensures Traced() && Some(spend) == Spend.Step(setup, old(spend), e)
    {
      spend := Spend.Step(setup, spend, e).value;
      spendRun, spendTrace := spendRun + [spend], spendTrace + [e];
    }

    method NoteNumbers(e: Numbers.Event)
      requires Traced() && Numbers.Step(numbers, e).Some?
      modifies this`numbers, this`numberTrace
      ensures Traced() && Some(numbers) == Numbers.Step(old(numbers), e)
    {
      ghost var next := Numbers.Step(numbers, e).value;
      Numbers.ReplayAppend(Numbers.Start(firstLedger, born), numberTrace, [e]);
      assert [e][1..] == [] && Numbers.Replay(next, []) == Some(next);
      numbers := Numbers.Step(numbers, e).value;
      numberTrace := numberTrace + [e];
    }

    // ---- Waiting

    /** What stays the caller's: the worker's place, its attempts and records, and the requests it has; or the
        request's check. */
    ghost predicate Kept(caller: Caller, spend0: Spend.State, spend1: Spend.State,
                         numbers0: Numbers.State, numbers1: Numbers.State)
    {
      && spend0.now <= spend1.now && spend0.nextId <= spend1.nextId
      && match caller
         case Worker =>
           && spend1.tried == spend0.tried && spend1.log == spend0.log && spend0.pending <= spend1.pending
           && numbers1.worker == numbers0.worker && numbers1.builds == numbers0.builds
           && numbers0.ledger <= numbers1.ledger
         case Request(c) =>
           (c in spend0.checks <==> c in spend1.checks) && (c in spend0.checks ==> spend1.checks[c] == spend0.checks[c])
    }

    lemma SpendingKeeps(caller: Caller, e: Spend.Event, s: Spend.State)
      requires Spend.Step(setup, s, e).Some? && (Foreign(caller, e) || e.Tick?)
      ensures Kept(caller, s, Spend.Step(setup, s, e).value, numbers, numbers)
    {
    }

    lemma NumberingKeeps(caller: Caller, n: Numbers.Event, m: Numbers.State)
      requires Numbers.Step(m, n).Some? && (ForeignNumber(caller, n) || n.Tick?)
      ensures Kept(caller, spend, spend, m, Numbers.Step(m, n).value)
    {
    }

    /** The clock moves, for both machines. */
    method Advance(caller: Caller, to: int)
      requires Valid() && clock <= to
      modifies this`clock, this`spend, this`spendRun, this`spendTrace, this`numbers, this`numberTrace
      ensures Valid() && Kept(caller, old(spend), spend, old(numbers), numbers)
    {
      SpendingKeeps(caller, Spend.Tick(to), spend);
      NoteSpend(Spend.Tick(to));
      NoteNumbers(Numbers.Tick(to));
      clock := to;
    }

    /** Somebody else's step, seen in the queue and in the counters. */
    method OtherSpending(caller: Caller, e: Spend.Event)
      requires Valid() && Foreign(caller, e) && Spend.Step(setup, spend, e).Some?
      modifies this`spend, this`spendRun, this`spendTrace, this`checks, this`jobs, this`nextId, counters`redis
      ensures Valid() && Kept(caller, old(spend), spend, old(numbers), numbers)
    {
      SpendingKeeps(caller, e, spend);
      ClockStays(e, spend);
      NoteSpend(e);
      checks, jobs, nextId, counters.redis := spend.checks, spend.pending, spend.nextId, spend.redis;
    }

    lemma ClockStays(e: Spend.Event, s: Spend.State)
      requires Spend.Step(setup, s, e).Some? && !e.Tick?
      ensures Spend.Step(setup, s, e).value.now == s.now
    {
    }

    method OtherNumbering(caller: Caller, n: Numbers.Event)
      requires Valid() && ForeignNumber(caller, n) && Numbers.Step(numbers, n).Some?
      modifies this`numbers, this`numberTrace, this`cache, this`ledger
      ensures Valid() && Kept(caller, old(spend), spend, old(numbers), numbers)
    {
      NumberingKeeps(caller, n, numbers);
      NoteNumbers(n);
      cache, ledger := numbers.cache, numbers.ledger;
    }

    method Happens(caller: Caller, event: Outside)
      requires Valid()
      modifies this, counters`redis
      ensures Valid() && Kept(caller, old(spend), spend, old(numbers), numbers)
    {
      match event {
        case Wait(to) =>
          if clock <= to {
            Advance(caller, to);
          }
        case Spending(e) =>
          if Foreign(caller, e) && Spend.Step(setup, spend, e).Some? {
            OtherSpending(caller, e);
          }
        case Numbering(n) =>
          if ForeignNumber(caller, n) && Numbers.Step(numbers, n).Some? {
            OtherNumbering(caller, n);
          }
      }
    }

    /** A wait, with whatever happens in it. */
    method Elsewhere(caller: Caller)
      requires Valid()
      modifies this, counters`redis
      ensures Valid() && Kept(caller, old(spend), spend, old(numbers), numbers)
    {
      var events := outside(waits);
      waits := waits + 1;
      for i := 0 to |events|
        invariant Valid() && Kept(caller, old(spend), spend, old(numbers), numbers)
      {
        Happens(caller, events[i]);
      }
    }

    // ---- Requests

    /** The check, and the place in the queue of a request that passes it. Whatever happens between choosing the
        keys of `day` and reading the counters, at the time of `read` the answer is that of the counters, and
        only a request that passes joins. */
    method AddTransactionToQueue(c: nat, amount: nat)
      returns (refused: Option<Spend.Reason>, ghost day: int, ghost read: Spend.State)
      requires Valid() && c !in checks
      modifies this, counters`redis
      ensures Valid() && c !in checks && old(clock) <= clock && day == DayOf(old(clock))
      ensures if Spend.TooMuch(setup, amount) then refused == Some(Spend.PerTransaction) && spend == old(spend)
              else refused == Spend.Verdict(setup, read, day, amount) && read.redis == spend.redis && read.now == clock
      ensures refused.None? ==> jobs == read.pending + [Spend.Job(read.nextId, amount, 1, Spend.Queued)]
      ensures refused.Some? && !Spend.TooMuch(setup, amount) ==> jobs == read.pending
      ensures old(nextId) <= read.nextId
    {
      day, read := DayOf(clock), spend;
      var tooMuch := ChooseKeys(c, amount);
      if tooMuch {
        return Some(Spend.PerTransaction), day, read;
      }
      Elsewhere(Request(c));
      read := spend;
      refused := ReadCounters(c);
    }

    /** The per-transaction limit, and the keys. */
    method ChooseKeys(c: nat, amount: nat) returns (tooMuch: bool)
      requires Valid() && c !in checks
      modifies this`spend, this`spendRun, this`spendTrace, this`checks
      ensures Valid() && tooMuch == Spend.TooMuch(setup, amount) && spend.nextId == old(spend).nextId
      ensures if tooMuch then spend == old(spend) && checks == old(checks)
              else c in checks && checks[c] == Spend.InFlight(amount, DayOf(clock))
    {
      NoteSpend(Spend.Check(c, amount));
      tooMuch := config.Some? && config.value.perTransaction.Some? && amount > config.value.perTransaction.value;
      if !tooMuch {
        checks := checks[c := Spend.InFlight(amount, DayOf(clock))];
      }
    }

    /** The counters of those keys, and the place in the queue. */
    method ReadCounters(c: nat) returns (refused: Option<Spend.Reason>)
      requires Valid() && c in checks
      modifies this`spend, this`spendRun, this`spendTrace, this`checks, this`jobs, this`nextId
      ensures Valid() && checks == old(checks) - {c} && spend.redis == old(spend).redis
      ensures refused == Spend.Verdict(setup, old(spend), old(checks[c]).day, old(checks[c]).amount)
      ensures jobs == if refused.Some? then old(jobs)
                      else old(jobs) + [Spend.Job(old(nextId), old(checks[c]).amount, 1, Spend.Queued)]
    {
      var check := checks[c];
      refused := Check(check);
      NoteRead(c, refused.Some?);
      checks := checks - {c};
      if refused.None? {
        jobs := jobs + [Spend.Job(nextId, check.amount, 1, Spend.Queued)];
        nextId := nextId + 1;
      }
    }

    method NoteRead(c: nat, isRefused: bool)
      requires Traced() && c in spend.checks
      requires isRefused <==> Spend.Verdict(setup, spend, spend.checks[c].day, spend.checks[c].amount).Some?
      modifies this`spend, this`spendRun, this`spendTrace
      ensures Traced()
      ensures var s := old(spend);
              var over := s.(checks := s.checks - {c});
              spend == if isRefused then over else
                         over.(pending := s.pending + [Spend.Job(s.nextId, s.checks[c].amount, 1, Spend.Queued)],
                               nextId := s.nextId + 1)
    {
      NoteSpend(Spend.Read(c));
    }

    method Check(check: Spend.InFlight) returns (refused: Option<Spend.Reason>)
      requires Ours() && spend.redis == counters.redis && spend.now == clock
      ensures refused == Spend.Verdict(setup, spend, check.day, check.amount)
    {
      refused := counters.CheckSpendLimit(config, check.day, clock, check.amount);
    }

    // ---- The worker

    /** The sequence number to build with, one below the number the transaction will carry. */
    method GetNextSequenceNumber(attempt: nat) returns (sequence: nat)
      requires Valid() && numbers.worker == Numbers.Starting(attempt)
      modifies this`cache, this`numbers, this`numberTrace
      ensures Valid() && numbers.worker == Numbers.Built(attempt, sequence + 1)
      ensures var cached := if attempt > 1 then None else Numbers.LiveValue(old(cache), clock);
              && sequence + 1 == Numbers.NextNumber(cached, ledger)
              && numbers.builds == old(numbers).builds + [Numbers.Build(attempt, clock, ledger, cached, sequence + 1)]
      ensures cache == Some(Numbers.Cached(sequence + 1, clock + Numbers.CACHE_TTL_MS))
    {
      if attempt > 1 {
        cache := None;
      }
      var ledgerSequence := ledger;
      var cachedSequence := Numbers.LiveValue(cache, clock);
      var nextSequence;
      if cachedSequence.Some? {
        if cachedSequence.value >= ledgerSequence {
          nextSequence := cachedSequence.value + 1;
        } else {
          nextSequence := ledgerSequence + 1;
        }
      } else {
        nextSequence := ledgerSequence + 1;
      }
      cache := Some(Numbers.Cached(nextSequence, clock + 60_000));
      NoteNumbers(Numbers.Allocate);
      sequence := nextSequence - 1;
    }

    /** One transaction was built, for that attempt. */
    ghost predicate BuiltOne(before: seq<Numbers.Build>, after: seq<Numbers.Build>, attempt: nat) {
      |after| == |before| + 1 && before <= after && after[|before|].attempt == attempt
    }

    /** One attempt at the i-th request. Whatever happens meanwhile: exactly this attempt is added to the
        history, one transaction is built for it, under the number this attempt of the request has, it ends as the
        network's answers say, its amount is recorded exactly when they say success within the twelve polls and
        it is positive, under the keys of the day on which that was seen, and the request leaves the queue unless
        it is to be tried again. */
    method ExecuteTxJob(i: nat) returns (ending: Ending, seen: Network, ghost day: int)
      requires Valid() && i < |jobs| && jobs[i].phase.Queued? && numbers.worker.Idle?
      modifies this, counters`redis
      ensures Valid() && numbers.worker.Idle?
      ensures spend.tried == old(spend.tried) + [Spend.Tried(old(jobs[i]).id, old(jobs[i]).amount, seen)]
      ensures Plausible(seen) && ending == EndingOf(seen) && DayOf(old(clock)) <= day <= DayOf(clock)
      ensures BuiltOne(old(numbers).builds, numbers.builds, old(jobs[i]).attempt)
      ensures var job := old(jobs[i]);
              spend.log == old(spend.log)
                + if ending == Done(true) && job.amount > 0 then [Spend.Entry(job.id, day, job.amount)] else []
      ensures var job := old(jobs[i]);
              ending.Threw? && ending.retryable && job.attempt < ATTEMPTS ==>
                i < |jobs| && jobs[i] == job.(attempt := job.attempt + 1)
    {
      var job := jobs[i];
      seen, ending := MakeAttempt(job);
      day := DayOf(clock);
      Close(i, seen, ending);
      if ending == Done(true) && job.amount > 0 {
        Elsewhere(Worker);
        Write(i);
      }
      NoteNumbers(Numbers.Stop);
    }

    /** Take a number, send, and wait for what becomes of it. */
    method MakeAttempt(job: Spend.Job) returns (seen: Network, ending: Ending)
      requires Valid() && numbers.worker.Idle?
      modifies this, counters`redis
      ensures Valid() && !numbers.worker.Idle? && Plausible(seen) && ending == EndingOf(seen)
      ensures BuiltOne(old(numbers).builds, numbers.builds, job.attempt)
      ensures spend.tried == old(spend.tried) && spend.log == old(spend.log) && old(jobs) <= jobs && old(clock) <= clock
    {
      var net := network(attempts);
      attempts := attempts + 1;
      NoteNumbers(Numbers.Begin(job.attempt));
      var sequence := GetNextSequenceNumber(job.attempt);
      Elsewhere(Worker);
      seen := Send(net, sequence + 1);
      ending := Poll(seen);
    }

    /** A transaction that carries any number but the ledger's next is refused and empties the cache. */
    method Send(net: Network, number: nat) returns (seen: Network)
      requires Valid() && Plausible(net) && numbers.worker.Built? && numbers.worker.number == number
      modifies this`cache, this`ledger, this`numbers, this`numberTrace
      ensures Valid() && Plausible(seen) && (seen.sending.Accepted? ==> numbers.worker.Sent?) && !numbers.worker.Idle?
      ensures seen == if net.sending.NotSent? || number == old(ledger) + 1 then net else Refused()
      ensures ledger == old(ledger) + if seen.prompt then 1 else 0
      ensures seen.sending.BadSequence? ==> cache.None?
      ensures numbers.builds == old(numbers).builds
    {
      if net.sending.NotSent? {
        return net;
      }
      if number != ledger + 1 {
        NoteNumbers(Numbers.Submit(false));
        cache := None;
        return Refused();
      }
      NoteNumbers(Numbers.Submit(net.prompt));
      if net.prompt {
        ledger := ledger + 1;
      }
      if net.sending.BadSequence? {
        NoteNumbers(Numbers.Forget);
        cache := None;
      }
      seen := net;
    }

    /** What sending comes to; the polls if it was accepted. */
    method Poll(seen: Network) returns (ending: Ending)
      requires Valid() && (seen.sending.Accepted? ==> numbers.worker.Sent?) && !numbers.worker.Idle?
      modifies this, counters`redis
      ensures Valid() && ending == EndingOf(seen) && !numbers.worker.Idle? && numbers.builds == old(numbers).builds
      ensures var k := FirstAnswer(seen.polls, 0);
              seen.sending.Accepted? && k < POLLS && seen.polls[k] == Failed(true) ==> cache.None?
      ensures spend.tried == old(spend.tried) && spend.log == old(spend.log) && old(jobs) <= jobs && old(clock) <= clock
    {
      match seen.sending {
        case NotSent(retryable) => return Threw(retryable);
        case BadSequence => return Threw(true);
        case Rejected(retryable) => return Threw(retryable);
        case SendThrew(retryable) => return Threw(retryable);
        case Accepted =>
      }
      var k := WaitForAnswer(seen.polls);
      if k == POLLS {
        return if seen.knownLate then Done(false) else Threw(true);
      }
      match seen.polls[k] {
        case Success => return Done(true);
        case Failed(badSeq) =>
          if badSeq {
            NoteNumbers(Numbers.Forget);
            cache := None;
          }
          return Threw(badSeq);
        case PollThrew(retryable) => return Threw(retryable);
      }
    }

    /** Twelve polls at most, with a wait before each. */
    method WaitForAnswer(polls: Polls) returns (k: nat)
      requires Valid()
      modifies this, counters`redis
      ensures Valid() && k == FirstAnswer(polls, 0) && Kept(Worker, old(spend), spend, old(numbers), numbers)
    {
      var retries := 12;
      while retries > 0
        invariant 0 <= retries <= POLLS
        invariant FirstAnswer(polls, 0) == FirstAnswer(polls, POLLS - retries)
        invariant Valid() && Kept(Worker, old(spend), spend, old(numbers), numbers)
      {
        Elsewhere(Worker);
        if polls[POLLS - retries] != NotFound {
          return POLLS - retries;
        }
        retries := retries - 1;
      }
      return POLLS;
    }

    /** The attempt is over: a success that was seen is to be recorded under the keys of this day; any other
        ending takes the request off the queue or puts it up for its next attempt. */
    method Close(i: nat, seen: Network, ending: Ending)
      requires Valid() && i < |jobs| && jobs[i].phase.Queued? && Plausible(seen) && ending == EndingOf(seen)
      modifies this`spend, this`spendRun, this`spendTrace, this`jobs
      ensures Valid() && spend.log == old(spend.log)
      ensures spend.tried == old(spend.tried) + [Spend.Tried(old(jobs[i]).id, old(jobs[i]).amount, seen)]
      ensures jobs == Spend.AfterAttempt(old(jobs), i, ending, DayOf(clock))
    {
      var job := jobs[i];
      NoteSpend(Spend.Attempt(i, seen));
      if ending == Done(true) && job.amount > 0 {
        jobs := jobs[i := job.(phase := Spend.Writing(DayOf(clock)))];
      } else if ending.Threw? && ending.retryable && job.attempt < 5 {
        jobs := jobs[i := job.(attempt := job.attempt + 1)];
      } else {
        jobs := jobs[..i] + jobs[i + 1..];
      }
    }

    /** The script, under the keys chosen before. */
    method Write(i: nat)
      requires Valid() && i < |jobs| && jobs[i].phase.Writing?
      modifies this`spend, this`spendRun, this`spendTrace, this`jobs, counters`redis
      ensures Valid() && spend.tried == old(spend.tried)
      ensures spend.log == old(spend.log) + [Spend.Entry(old(jobs[i]).id, old(jobs[i]).phase.day, old(jobs[i]).amount)]
      ensures jobs == old(jobs)[..i] + old(jobs)[i + 1..]
    {
      ScriptAndNote(i);
      jobs := jobs[..i] + jobs[i + 1..];
    }

    method ScriptAndNote(i: nat)
      requires Ours() && Traced() && i < |spend.pending| && spend.pending[i].phase.Writing?
      requires spend.redis == counters.redis && spend.now == clock
      modifies this`spend, this`spendRun, this`spendTrace, counters`redis
      ensures Traced() && spend.redis == counters.redis
      ensures var s, job := old(spend), old(spend).pending[i];
              && spend.log == s.log + [Spend.Entry(job.id, job.phase.day, job.amount)]
              && spend.pending == Spend.Without(s.pending, i) && spend.tried == s.tried
              && spend.checks == s.checks && spend.now == s.now && spend.nextId == s.nextId
    {
      var job := spend.pending[i];
      Script(Spend.Entry(job.id, job.phase.day, job.amount));
      NoteRecord(i);
    }

    method Script(e: Spend.Entry)
      requires Ours() && spend.redis == counters.redis && spend.now == clock
      modifies counters`redis
      ensures counters.redis == Spend.Recording(setup, spend, e).redis
    {
      counters.RecordSpend(e.day, clock, e.amount);
    }

    method NoteRecord(i: nat)
      requires Traced() && i < |spend.pending| && spend.pending[i].phase.Writing?
      modifies this`spend, this`spendRun, this`spendTrace
      ensures Traced()
      ensures var s, job := old(spend), old(spend).pending[i];
              var e := Spend.Entry(job.id, job.phase.day, job.amount);
              && spend.redis == Spend.Recording(setup, s, e).redis && spend.log == s.log + [e]
              && spend.pending == Spend.Without(s.pending, i) && spend.tried == s.tried
              && spend.checks == s.checks && spend.now == s.now && spend.nextId == s.nextId
    {
      NoteSpend(Spend.Record(i));
    }
  }
}
