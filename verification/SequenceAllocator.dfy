/** Sequence numbers for one source account: a cached counter with a time to live, a ledger that takes
    only its own number plus one, and a single worker that retries. */
module SequenceAllocator {
  import opened Common

  const CACHE_TTL_MS: int := 60_000

  datatype Cached = Cached(value: nat, expiresAt: int)

  function LiveValue(cache: Option<Cached>, now: int): Option<nat> {
    if cache.Some? && now < cache.value.expiresAt then Some(cache.value.value) else None
  }

  /** The number to build with: a retry ignores the cache. */
  function NextNumber(cached: Option<nat>, ledger: nat): nat {
    if cached.Some? && cached.value >= ledger then cached.value + 1 else ledger + 1
  }

  /** One built transaction: its attempt, the ledger and cache it was computed from, and its number. */
  datatype Build = Build(attempt: nat, at: int, ledger: nat, cached: Option<nat>, number: nat)

  /** The one worker: between attempts, at the start of one, with a number in hand, or past sending. */
  datatype Worker = Idle | Starting(attempt: nat) | Built(attempt: nat, number: nat) | Sent(attempt: nat, number: nat)

  datatype State = State(ledger: nat, cache: Option<Cached>, now: int, worker: Worker, builds: seq<Build>)

  datatype Event =
    | Tick(to: int)
    | Foreign                // another transaction of the account gets in, of a client or late one of the worker
    | Begin(attempt: nat)    // the worker takes up a job for this attempt
    | Allocate               // getNextSequenceNumber
    | Submit(taken: bool)    // a wrong number is refused; a right one is taken at once, or not
    | Forget                 // the network answers "bad sequence" for another reason
    | Stop                   // the attempt is over, whether or not anything was sent

  function Start(ledger: nat, now: int): State { State(ledger, None, now, Idle, []) }

  function Step(s: State, e: Event): Option<State> {
    match e
    case Tick(to) => if s.now <= to then Some(s.(now := to)) else None
    case Foreign => Some(s.(ledger := s.ledger + 1))
    case Begin(attempt) => if s.worker.Idle? && attempt >= 1 then Some(s.(worker := Starting(attempt))) else None
    case Allocate =>
      (match s.worker
       case Starting(attempt) =>
         var cached := if attempt > 1 then None else LiveValue(s.cache, s.now);
         var number := NextNumber(cached, s.ledger);
         Some(s.(cache := Some(Cached(number, s.now + CACHE_TTL_MS)), worker := Built(attempt, number),
                 builds := s.builds + [Build(attempt, s.now, s.ledger, cached, number)]))
       case _ => None)
    case Submit(taken) =>
      (match s.worker
       case Built(attempt, number) =>
         var sent := s.(worker := Sent(attempt, number));
         if number != s.ledger + 1 then Some(sent.(cache := None))
         else Some(if taken then sent.(ledger := s.ledger + 1) else sent)
       case _ => None)
    case Forget => if s.worker.Sent? then Some(s.(cache := None)) else None
    case Stop => if s.worker.Idle? then None else Some(s.(worker := Idle))
  }

  function Replay(s: State, trace: seq<Event>): Option<State>
    decreases |trace|
  {
    if trace == [] then Some(s)
    else match Step(s, trace[0])
      case None => None
      case Some(next) => Replay(next, trace[1..])
  }

  ghost predicate Reachable(s: State) {
    exists ledger: nat, now: int, trace: seq<Event> :: Replay(Start(ledger, now), trace) == Some(s)
  }

  ghost predicate BuildOk(b: Build) {
    b.number == NextNumber(b.cached, b.ledger) && b.attempt >= 1 && (b.attempt > 1 ==> b.cached.None?)
  }

  /** From one build to the next: time and ledger ascend, and a live cache shows the earlier number. */
  ghost predicate Follows(a: Build, b: Build) {
    && a.at <= b.at && a.ledger <= b.ledger
    && (b.cached.Some? ==> b.cached.value == a.number && b.at < a.at + CACHE_TTL_MS)
  }

  /** The last build against the present state. */
  ghost predicate LastOk(s: State, last: Build) {
    && last.ledger <= s.ledger && last.at <= s.now
    && (s.cache.Some? ==> s.cache.value == Cached(last.number, last.at + CACHE_TTL_MS))
    && (s.worker.Built? ==> s.worker.number == last.number && s.worker.attempt == last.attempt)
  }

  ghost predicate Inv(s: State) {
    && (forall i :: 0 <= i < |s.builds| ==> BuildOk(s.builds[i]))
    && (forall i :: 0 < i < |s.builds| ==> Follows(s.builds[i - 1], s.builds[i]))
    && (s.worker.Starting? ==> s.worker.attempt >= 1)
    && if s.builds == [] then s.cache.None? && !s.worker.Built?
       else s.builds[0].cached.None? && LastOk(s, s.builds[|s.builds| - 1])
  }

  lemma AllocateKeepsInv(s: State)
    requires Inv(s) && Step(s, Allocate).Some?
    ensures Inv(Step(s, Allocate).value)
  {
    var s' := Step(s, Allocate).value;
    var b := s'.builds[|s.builds|];
    assert BuildOk(b);
    forall i | 0 < i < |s'.builds| ensures Follows(s'.builds[i - 1], s'.builds[i]) {
      if i < |s.builds| { assert Follows(s.builds[i - 1], s.builds[i]); }
    }
  }

  lemma StepKeepsInv(s: State, e: Event)
    requires Inv(s) && Step(s, e).Some?
    ensures Inv(Step(s, e).value)
  {
    if e.Allocate? { AllocateKeepsInv(s); }
  }

  lemma {:induction false} ReplayKeepsInv(s: State, trace: seq<Event>)
    requires Inv(s) && Replay(s, trace).Some?
    ensures Inv(Replay(s, trace).value)
    decreases |trace|
  {
    if trace != [] {
      StepKeepsInv(s, trace[0]);
      ReplayKeepsInv(Step(s, trace[0]).value, trace[1..]);
    }
  }

  lemma ReachableInv(s: State)
    requires Reachable(s)
    ensures Inv(s)
  {
    var ledger: nat, now: int, trace: seq<Event> :| Replay(Start(ledger, now), trace) == Some(s);
    ReplayKeepsInv(Start(ledger, now), trace);
  }

  /** Every number built lies above the ledger it was built for, and is the ledger's next one exactly
      when no hole lies between ledger and cache; a second or later attempt always builds the next one. */
  lemma BuildsLieAboveLedger(s: State, i: nat)
    requires Reachable(s) && i < |s.builds|
    ensures var b := s.builds[i];
            && b.number > b.ledger
            && (b.number == b.ledger + 1 <==> b.cached.None? || b.cached.value <= b.ledger)
            && (b.attempt > 1 ==> b.number == b.ledger + 1)
  {
    ReachableInv(s);
    assert BuildOk(s.builds[i]);
  }

  /** Builds i..j that each found the cache alive. */
  ghost predicate UnderLiveCache(s: State, i: nat, j: nat) {
    i <= j < |s.builds| && forall k :: i < k <= j ==> s.builds[k].cached.Some?
  }

  /** Under a live cache, numbers strictly increase from build to build. */
  lemma {:induction false} NumbersIncreaseUnderLiveCache(s: State, i: nat, j: nat)
    requires Reachable(s) && UnderLiveCache(s, i, j) && i < j
    ensures s.builds[i].number < s.builds[j].number
    ensures s.builds[j].number >= s.builds[i].number + (j - i)
    decreases j
  {
    ReachableInv(s);
    assert BuildOk(s.builds[j]) && Follows(s.builds[j - 1], s.builds[j]);
    if i + 1 < j {
      NumbersIncreaseUnderLiveCache(s, i, j - 1);
    }
  }

  /** The cache is alive at a first attempt exactly when the build before it is less than a minute old
      and was not refused since; it then shows that build's number. */
  lemma LiveCacheShowsLastNumber(s: State)
    requires Reachable(s) && s.builds != []
    ensures LiveValue(s.cache, s.now).Some? <==>
              s.cache.Some? && s.now < s.builds[|s.builds| - 1].at + 60_000
    ensures LiveValue(s.cache, s.now).Some? ==> LiveValue(s.cache, s.now).value == s.builds[|s.builds| - 1].number
  {
    ReachableInv(s);
  }

  /** Nothing but time passing. */
  predicate Waiting(trace: seq<Event>) {
    forall i :: 0 <= i < |trace| ==> trace[i].Tick?
  }

  lemma {:induction false} ReplayAppend(s: State, a: seq<Event>, b: seq<Event>)
    requires Replay(s, a).Some?
    ensures Replay(s, a + b) == Replay(Replay(s, a).value, b)
    decreases |a|
  {
    if a == [] {
      assert a + b == b;
    } else {
      assert (a + b)[1..] == a[1..] + b;
      ReplayAppend(Step(s, a[0]).value, a[1..], b);
    }
  }

  /** One attempt of which the network takes what it can, at whatever pace. */
  function AttemptTrace(attempt: nat, before: seq<Event>, between: seq<Event>): seq<Event> {
    [Begin(attempt)] + (before + ([Allocate] + (between + [Submit(true), Stop])))
  }

  /** Waits that the clock allows, one after the other, starting at `now`. */
  predicate Runs(now: int, trace: seq<Event>)
    requires Waiting(trace)
    decreases |trace|
  {
    trace == [] || (now <= trace[0].to && Runs(trace[0].to, trace[1..]))
  }

  function EndOf(now: int, trace: seq<Event>): int
    requires Waiting(trace)
  {
    if trace == [] then now else trace[|trace| - 1].to
  }

  lemma {:induction false} RunsReplay(s: State, trace: seq<Event>)
    requires Waiting(trace) && Runs(s.now, trace)
    ensures Replay(s, trace) == Some(s.(now := EndOf(s.now, trace)))
    decreases |trace|
  {
    if trace != [] { RunsReplay(Step(s, trace[0]).value, trace[1..]); }
  }

  /** When an attempt gets in: always from the second on, and a first one exactly when no hole lies between
      the ledger and the number the cache shows at that moment. */
  lemma AttemptGetsInExactlyWhen(s: State, attempt: nat, before: seq<Event>, between: seq<Event>)
    requires s.worker.Idle? && attempt >= 1 && Waiting(before) && Waiting(between)
    requires Runs(s.now, before) && Runs(EndOf(s.now, before), between)
    ensures var r := Replay(s, AttemptTrace(attempt, before, between));
            var cached := LiveValue(s.cache, EndOf(s.now, before));
            && r.Some? && r.value.worker.Idle? && r.value.now == EndOf(EndOf(s.now, before), between)
            && r.value.ledger == s.ledger + if attempt > 1 || cached.None? || cached.value <= s.ledger then 1 else 0
  {
    var s1 := Step(s, Begin(attempt)).value;
    RunsReplay(s1, before);
    var s2 := s1.(now := EndOf(s.now, before));
    var s3 := Step(s2, Allocate).value;
    RunsReplay(s3, between);
    var s4 := s3.(now := EndOf(s3.now, between));
    var s5 := Step(s4, Submit(true)).value;
    var tail := [Submit(true), Stop];
    assert tail[1..] == [Stop] && [Stop][1..] == [];
    assert Replay(s5.(worker := Idle), []) == Some(s5.(worker := Idle));
    assert Replay(s5, [Stop]) == Some(s5.(worker := Idle));
    assert Replay(s4, tail) == Some(s5.(worker := Idle));
    ReplayAppend(s3, between, tail);
    After(s2, Allocate, between + tail, s3);
    ReplayAppend(s1, before, [Allocate] + (between + tail));
    After(s, Begin(attempt), before + ([Allocate] + (between + tail)), s1);
  }

  lemma After(s: State, e: Event, rest: seq<Event>, next: State)
    requires Step(s, e) == Some(next)
    ensures Replay(s, [e] + rest) == Replay(next, rest)
  {
    assert ([e] + rest)[1..] == rest;
  }

  /** Two attempts close any hole, however long each takes and however long the worker backs off between
      them: if the first attempt at a job does not get in, the next attempt does, with exactly the ledger's
      next number. */
  lemma TwoAttemptsSuffice(s: State, before: seq<Event>, between: seq<Event>, backoff: seq<Event>,
                           attempt: nat, before': seq<Event>, between': seq<Event>)
    requires s.worker.Idle? && Waiting(before) && Waiting(between) && Runs(s.now, before)
    requires Runs(EndOf(s.now, before), between)
    requires var first := EndOf(EndOf(s.now, before), between);
             && Waiting(backoff) && Waiting(before') && Waiting(between') && attempt > 1
             && Runs(first, backoff) && Runs(EndOf(first, backoff), before')
             && Runs(EndOf(EndOf(first, backoff), before'), between')
    ensures var first := Replay(s, AttemptTrace(1, before, between));
            && first.Some?
            && (first.value.ledger == s.ledger + 1 ||
                var second := Replay(first.value, backoff + AttemptTrace(attempt, before', between'));
                first.value.ledger == s.ledger && second.Some? && second.value.ledger == s.ledger + 1)
  {
    AttemptGetsInExactlyWhen(s, 1, before, between);
    var s1 := Replay(s, AttemptTrace(1, before, between)).value;
    RunsReplay(s1, backoff);
    ReplayAppend(s1, backoff, AttemptTrace(attempt, before', between'));
    AttemptGetsInExactlyWhen(s1.(now := EndOf(s1.now, backoff)), attempt, before', between');
  }
}
