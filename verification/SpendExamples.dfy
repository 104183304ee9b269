/** Runs on which requests land unseen, and runs that reach the overshoot bound. */
module SpendExamples {
  import opened Common
  import opened Calendar
  import opened WeekKeys
  import opened RedisCounters
  import opened Attempts
  import opened SpendSpec
  import opened SpendTheorems
  import opened SpendRequests

  lemma ThenOne(u: Setup, s0: State, trace: seq<Event>, s: State, e: Event, end: State)
    requires Replay(u, s0, trace) == Some(s) && Step(u, s, e) == Some(end)
    ensures Replay(u, s0, trace + [e]) == Some(end)
  {
    ReplayAppend(u, s0, trace, e);
  }

  /** s with one more request in the queue. */
  function Queued1(s: State, amount: nat): State {
    s.(pending := s.pending + [Job(s.nextId, amount, 1, Queued)], nextId := s.nextId + 1,
       peak := Max(s.peak, 1 + |s.pending|))
  }

  /** A check and its read, with no other under way. */
  lemma Enqueue(u: Setup, s0: State, trace: seq<Event>, s: State, amount: nat) returns (longer: seq<Event>)
    requires Replay(u, s0, trace) == Some(s) && s.checks == map[]
    requires !TooMuch(u, amount) && Verdict(u, s, Today(s), amount).None?
    ensures Replay(u, s0, longer) == Some(Queued1(s, amount))
  {
    var s1 := Step(u, s, Check(0, amount)).value;
    ThenOne(u, s0, trace, s, Check(0, amount), s1);
    assert s1.checks - {0} == map[] && s1.checks[0] == InFlight(amount, Today(s));
    assert Verdict(u, s1, Today(s), amount) == Verdict(u, s, Today(s), amount);
    var s2 := Step(u, s1, Read(0)).value;
    ThenOne(u, s0, trace + [Check(0, amount)], s1, Read(0), s2);
    assert s2 == Queued1(s, amount);
    longer := trace + [Check(0, amount)] + [Read(0)];
  }

  /** An accepted transaction that lands while every poll says "not found". */
  function Unheard(knownLate: bool): Network {
    Network(Accepted, Landed, true, seq(POLLS, _ => NotFound), knownLate)
  }

  function Heard(): Network {
    Network(Accepted, Landed, true, seq(POLLS, _ => Success), false)
  }

  lemma Endings()
    ensures Plausible(Unheard(false)) && Plausible(Unheard(true)) && Plausible(Heard())
    ensures EndingOf(Unheard(false)) == Threw(true) && EndingOf(Unheard(true)) == Done(false)
    ensures EndingOf(Heard()) == Done(true)
    ensures Blind(Unheard(false)) && Blind(Unheard(true)) && !Blind(Heard())
  {
    var k := FirstAnswer(Unheard(false).polls, 0);
    if k < POLLS { assert false; }
    assert FirstAnswer(Heard().polls, 0) == 0;
    RecordedExactlyWhen(Heard());
  }

  lemma BothGrow(tried: seq<Tried>, t: Tried)
    ensures LandedTimes(tried + [t], t.id) == LandedTimes(tried, t.id) + if t.net.fate.Landed? then 1 else 0
    ensures LandedSum(tried + [t]) == LandedSum(tried) + if t.net.fate.Landed? then t.amount else 0
    ensures SeenTimes(tried + [t], t.id) == SeenTimes(tried, t.id) + if EndingOf(t.net) == Done(true) then 1 else 0
  {
    assert (tried + [t])[..|tried|] == tried;
  }

  /** One request in the queue that has landed n times unseen. */
  ghost predicate LandedUnseen(s: State, amount: nat, n: nat) {
    && s.checks == map[] && s.log == [] && s.redis == map[]
    && LandedTimes(s.tried, 0) == n && SeenTimes(s.tried, 0) == 0 && LandedSum(s.tried) == n * amount
  }

  /** The first n attempts all land and nobody hears of it. */
  lemma {:induction false} LandUnseen(u: Setup, now: int, amount: nat, n: nat) returns (trace: seq<Event>, s: State)
    requires u.config.None? && n <= ATTEMPTS
    ensures Replay(u, Start(now), trace) == Some(s) && s.now == now && LandedUnseen(s, amount, n)
    ensures s.pending == if n < ATTEMPTS then [Job(0, amount, n + 1, Queued)] else []
  {
    if n == 0 {
      trace := Enqueue(u, Start(now), [], Start(now), amount);
      s := Queued1(Start(now), amount);
    } else {
      var fewer, before := LandUnseen(u, now, amount, n - 1);
      s := UnseenStep(u, before, amount, n - 1);
      ThenOne(u, Start(now), fewer, before, Attempt(0, Unheard(false)), s);
      trace := fewer + [Attempt(0, Unheard(false))];
    }
  }

  lemma UnseenStep(u: Setup, s: State, amount: nat, n: nat) returns (end: State)
    requires LandedUnseen(s, amount, n) && n < ATTEMPTS && s.pending == [Job(0, amount, n + 1, Queued)]
    ensures Step(u, s, Attempt(0, Unheard(false))) == Some(end) && LandedUnseen(end, amount, n + 1)
    ensures end.now == s.now && end.pending == if n + 1 < ATTEMPTS then [Job(0, amount, n + 2, Queued)] else []
  {
    Endings();
    end := Step(u, s, Attempt(0, Unheard(false))).value;
    BothGrow(s.tried, Tried(0, amount, Unheard(false)));
    assert (n + 1) * amount == n * amount + amount;
  }

  /** A run on which one request pays five times and is never recorded; it is reported as failed. */
  lemma OneRequestPaysFiveTimes(u: Setup, now: int, amount: nat) returns (trace: seq<Event>, s: State)
    requires u.config.None?
    ensures Replay(u, Start(now), trace) == Some(s) && s.pending == [] && s.log == []
    ensures LandedTimes(s.tried, 0) == ATTEMPTS && LandedSum(s.tried) == ATTEMPTS * amount
  {
    trace, s := LandUnseen(u, now, amount, ATTEMPTS);
  }

  /** An attempt that is heard of, and the record of it. */
  lemma HeardStep(u: Setup, s0: State, trace: seq<Event>, s: State, job: Job) returns (longer: seq<Event>, end: State)
    requires Replay(u, s0, trace) == Some(s) && s.pending == [job] && job.phase.Queued? && job.amount > 0
    ensures Replay(u, s0, longer) == Some(end) && end.pending == [job.(phase := Writing(Today(s)))]
    ensures end.tried == s.tried + [Tried(job.id, job.amount, Heard())]
    ensures end == s.(pending := end.pending, tried := end.tried)
  {
    Endings();
    end := Step(u, s, Attempt(0, Heard())).value;
    ThenOne(u, s0, trace, s, Attempt(0, Heard()), end);
    longer := trace + [Attempt(0, Heard())];
  }

  lemma RecordStep(u: Setup, s0: State, trace: seq<Event>, s: State, job: Job) returns (longer: seq<Event>, end: State)
    requires Replay(u, s0, trace) == Some(s) && s.pending == [job] && job.phase.Writing?
    ensures Replay(u, s0, longer) == Some(end) && Step(u, s, Record(0)) == Some(end)
    ensures end.pending == [] && end.log == s.log + [Entry(job.id, job.phase.day, job.amount)]
    ensures end.tried == s.tried && end.now == s.now && end.checks == s.checks && end.peak == s.peak
  {
    end := Step(u, s, Record(0)).value;
    ThenOne(u, s0, trace, s, Record(0), end);
    longer := trace + [Record(0)];
    var e := RecordSteps(u, s, 0);
  }

  /** A run on which one request pays twice and is recorded once: the first transaction lands, neither the
      polls nor the lookup find it, the retry lands as well and is seen. */
  lemma OneRequestPaysTwice(u: Setup, now: int, amount: nat) returns (trace: seq<Event>, s: State)
    requires u.config.None? && amount > 0
    ensures Replay(u, Start(now), trace) == Some(s) && s.pending == []
    ensures LandedTimes(s.tried, 0) == 2 && SeenTimes(s.tried, 0) == 1 && RecordTimes(s.log, 0) == 1
    ensures Total(s.log) == amount && LandedSum(s.tried) == 2 * amount
  {
    Endings();
    var once, s1 := LandUnseen(u, now, amount, 1);
    var twice, s2 := HeardStep(u, Start(now), once, s1, Job(0, amount, 2, Queued));
    BothGrow(s1.tried, Tried(0, amount, Heard()));
    trace, s := RecordStep(u, Start(now), twice, s2, s2.pending[0]);
    var e := Entry(0, s2.pending[0].phase.day, amount);
    SumsGrow([], e, 0);
    RecordTimesGrow([], e, 0);
    assert s.log == [] + [e];
  }

  /** A run that reports success for a request that landed and is never recorded. */
  lemma SuccessWithoutRecord(u: Setup, now: int, amount: nat) returns (trace: seq<Event>, s: State)
    requires u.config.None? && amount > 0
    ensures Replay(u, Start(now), trace) == Some(s) && s.pending == [] && s.log == []
    ensures s.tried == [Tried(0, amount, Unheard(true))] && EndingOf(Unheard(true)) == Done(false)
    ensures LandedSum(s.tried) == amount
  {
    var queued := Enqueue(u, Start(now), [], Start(now), amount);
    trace, s := FoundLate(u, Start(now), queued, Queued1(Start(now), amount), Job(0, amount, 1, Queued));
    BothGrow([], Tried(0, amount, Unheard(true)));
    assert s.tried == [] + [Tried(0, amount, Unheard(true))];
  }

  lemma FoundLate(u: Setup, s0: State, trace: seq<Event>, s: State, job: Job) returns (longer: seq<Event>, end: State)
    requires Replay(u, s0, trace) == Some(s) && s.pending == [job] && job.phase.Queued?
    ensures Replay(u, s0, longer) == Some(end) && end.pending == [] && end.log == s.log
    ensures end.tried == s.tried + [Tried(job.id, job.amount, Unheard(true))] && EndingOf(Unheard(true)) == Done(false)
  {
    Endings();
    end := Step(u, s, Attempt(0, Unheard(true))).value;
    ThenOne(u, s0, trace, s, Attempt(0, Unheard(true)), end);
    longer := trace + [Attempt(0, Unheard(true))];
  }

  // ---- Overshoot

  /** A daily limit, and a per-transaction limit within it. */
  function Capped(keys: Keys, cap: nat, limit: nat): Setup {
    Setup(keys, Some(Limits(Some(cap), Some(limit), None, None)))
  }

  /** Idle, with that much recorded today. */
  ghost predicate IdleWith(u: Setup, s: State, now: int, spent: nat) {
    && Agrees(u, s) && s.now == now && s.checks == map[] && s.pending == [] && s.peak <= 1
    && DaySum(s.log, DayOf(now)) == spent
  }

  /** One request of that amount is checked, lands, and is recorded. */
  lemma SpendOne(u: Setup, s0: State, trace: seq<Event>, s: State, spent: nat, cap: nat, limit: nat, amount: nat)
    returns (longer: seq<Event>, end: State)
    requires u == Capped(u.keys, cap, limit) && Replay(u, s0, trace) == Some(s) && IdleWith(u, s, s.now, spent)
    requires 0 < amount <= cap && spent + amount <= limit
    ensures Replay(u, s0, longer) == Some(end) && IdleWith(u, end, s.now, spent + amount)
  {
    ReadAgrees(u, s);
    var queued := Enqueue(u, s0, trace, s, amount);
    var s1 := Queued1(s, amount);
    QueueAgrees(u, s, amount);
    var heard, s2 := HeardStep(u, s0, queued, s1, Job(s.nextId, amount, 1, Queued));
    WritingAgrees(u, s1, s2);
    longer, end := RecordStep(u, s0, heard, s2, s2.pending[0]);
    StepAgrees(u, s2, Record(0));
    SumsGrow(s.log, Entry(s.nextId, DayOf(s.now), amount), DayOf(s.now));
  }

  lemma WritingAgrees(u: Setup, s: State, s': State)
    requires Agrees(u, s) && |s'.pending| == 1 && s'.pending[0].amount > 0 && s'.pending[0].phase == Writing(Today(s))
    requires s' == s.(pending := s'.pending, tried := s'.tried)
    ensures Agrees(u, s')
  {
    SameCountersAgree(u, s, s');
  }

  lemma QueueAgrees(u: Setup, s: State, amount: nat)
    requires Agrees(u, s)
    ensures Agrees(u, Queued1(s, amount))
  {
    SameCountersAgree(u, s, Queued1(s, amount));
  }

  /** Requests of at most the cap, one after the other, record any amount up to the limit. */
  lemma {:induction false} SpendUpTo(u: Setup, now: int, cap: nat, limit: nat, target: nat)
    returns (trace: seq<Event>, s: State)
    requires TellApart(u.keys) && Modern(DayOf(now)) && u == Capped(u.keys, cap, limit) && 0 < cap && target <= limit
    ensures Replay(u, Start(now), trace) == Some(s) && IdleWith(u, s, now, target)
  {
    if target == 0 {
      StartAgrees(u, now);
      trace, s := [], Start(now);
    } else {
      var amount := if target < cap then target else cap;
      var fewer, before := SpendUpTo(u, now, cap, limit, target - amount);
      trace, s := SpendOne(u, Start(now), fewer, before, target - amount, cap, limit, amount);
    }
  }

  /** k requests of the cap wait in the queue, all but one cap of the limit being recorded. */
  ghost predicate Filled(s: State, now: int, cap: nat, room: int, k: nat, peak: nat) {
    && s.now == now && s.checks == map[] && |s.pending| == k && SumOf(s.pending) == k * cap && s.peak == Max(peak, k)
    && DaySum(s.log, DayOf(now)) == room
  }

  lemma CapFits(u: Setup, s: State, cap: nat, limit: nat)
    requires u == Capped(u.keys, cap, limit) && Agrees(u, s) && DaySum(s.log, Today(s)) + cap <= limit
    ensures !TooMuch(u, cap) && Verdict(u, s, Today(s), cap).None?
  {
    ReadAgrees(u, s);
  }

  lemma FillOne(u: Setup, s0: State, trace: seq<Event>, s: State, cap: nat, limit: nat, k: nat, peak: nat)
    returns (longer: seq<Event>)
    requires u == Capped(u.keys, cap, limit) && Replay(u, s0, trace) == Some(s) && Agrees(u, s)
    requires cap <= limit && Filled(s, s.now, cap, limit - cap, k, peak)
    ensures Replay(u, s0, longer) == Some(Queued1(s, cap))
    ensures Filled(Queued1(s, cap), s.now, cap, limit - cap, k + 1, peak) && Agrees(u, Queued1(s, cap))
  {
    CapFits(u, s, cap, limit);
    longer := Enqueue(u, s0, trace, s, cap);
    QueueAgrees(u, s, cap);
    FilledGrows(s, s.now, cap, limit - cap, k, peak);
  }

  lemma FilledGrows(s: State, now: int, cap: nat, room: nat, k: nat, peak: nat)
    requires Filled(s, now, cap, room, k, peak)
    ensures Filled(Queued1(s, cap), now, cap, room, k + 1, peak)
  {
    assert Queued1(s, cap).pending[..|s.pending|] == s.pending;
    assert (k + 1) * cap == k * cap + cap;
  }

  /** k more requests of the cap each are let through while none of them is recorded. */
  lemma {:induction false} FillUp(u: Setup, s0: State, trace: seq<Event>, s: State, cap: nat, limit: nat, k: nat)
    returns (longer: seq<Event>, end: State)
    requires u == Capped(u.keys, cap, limit) && Replay(u, s0, trace) == Some(s) && Agrees(u, s)
    requires cap <= limit && Filled(s, s.now, cap, limit - cap, 0, s.peak)
    ensures Replay(u, s0, longer) == Some(end) && Agrees(u, end) && Filled(end, s.now, cap, limit - cap, k, s.peak)
  {
    if k == 0 {
      longer, end := trace, s;
    } else {
      var fewer, before := FillUp(u, s0, trace, s, cap, limit, k - 1);
      longer := FillOne(u, s0, fewer, before, cap, limit, k - 1, s.peak);
      end := Queued1(before, cap);
    }
  }

  /** The bound is reached for every m and for every cap up to the limit: all but one cap of the daily limit
      is recorded, and then m requests of the cap each pass the check before the first is recorded. */
  lemma OvershootIsReached(u: Setup, now: int, cap: nat, limit: nat, m: nat) returns (trace: seq<Event>, end: State)
    requires TellApart(u.keys) && Modern(DayOf(now)) && u == Capped(u.keys, cap, limit) && 0 < cap <= limit && m >= 1
    ensures Replay(u, Start(now), trace) == Some(end) && end.peak == m && Cap(u.config.value, limit) == cap
    ensures Recorded(end, Day) + SumOf(end.pending) == limit + (m - 1) * cap
  {
    var first, s := SpendUpTo(u, now, cap, limit, limit - cap);
    trace, end := FillUp(u, Start(now), first, s, cap, limit, m);
    assert m * cap == cap + (m - 1) * cap;
  }
}
