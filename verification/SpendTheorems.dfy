/** Counters agree with the log of recorded spending, and what the check then bounds. */
module SpendTheorems {
  import opened Common
  import opened Calendar
  import opened WeekKeys
  import opened RedisCounters
  import opened Attempts
  import opened SpendSpec

  const DAY_MS: int := MS_PER_DAY

  function Today(s: State): int { DayOf(s.now) }

  /** A counter key lives at least until `end`. */
  predicate LivesUntil(r: Redis, key: string, end: int) {
    key in r ==> r[key].expiresAt.Some? && r[key].expiresAt.value >= end
  }

  ghost predicate DailyAgrees(r: Redis, key: string, log: seq<Entry>, day: int) {
    Stored(r, key) == DaySum(log, day) && LivesUntil(r, key, (day + 2) * DAY_MS)
  }

  ghost predicate WeeklyAgrees(r: Redis, key: string, log: seq<Entry>, day: int) {
    Stored(r, key) == WeekSum(log, MondayOf(day)) && LivesUntil(r, key, (MondayOf(day) + 8) * DAY_MS)
  }

  ghost predicate LifetimeAgrees(r: Redis, key: string, log: seq<Entry>) {
    Stored(r, key) == Total(log) && (key in r ==> r[key].expiresAt.None?)
  }

  /** The counters of today and later hold what the log says. Those of earlier days may have expired, and a
      script that was held up may have started them anew. */
  ghost predicate Agrees(u: Setup, s: State) {
    && TellApart(u.keys)
    && DaysAgree(u.keys, s)
    && WeeksAgree(u.keys, s)
    && LifetimeAgrees(s.redis, u.keys.lifetime, s.log)
    && AllPositive(s.redis)
    && ClockOk(s)
  }

  ghost predicate DaysAgree(k: Keys, s: State) {
    forall day :: Today(s) <= day ==> DailyAgrees(s.redis, k.daily(day), s.log, day)
  }

  ghost predicate WeeksAgree(k: Keys, s: State) {
    forall day :: Today(s) <= day ==> WeeklyAgrees(s.redis, k.weekly(day), s.log, day)
  }

  ghost predicate AllPositive(r: Redis) {
    forall k :: k in r ==> r[k].value > 0
  }

  predicate NoLater(day: int, today: int) { Modern(day) && day <= today }

  /** Keys are never chosen ahead of the clock, and only requests of a positive amount are written. */
  ghost predicate ClockOk(s: State) {
    && Modern(Today(s))
    && (forall c :: c in s.checks ==> NoLater(s.checks[c].day, Today(s)))
    && (forall i :: 0 <= i < |s.pending| && s.pending[i].phase.Writing? ==>
          NoLater(s.pending[i].phase.day, Today(s)) && s.pending[i].amount > 0)
    && (forall i :: 0 <= i < |s.log| ==> s.log[i].day <= Today(s))
  }

  // ---- The script

  /** What one counter of the script does to any other. */
  lemma BumpElsewhere(r: Redis, key: string, now: int, amount: int, ttl: int)
    requires amount > 0 && AllPositive(r)
    ensures var r' := Bump(r, key, now, amount, ttl);
            AllPositive(r') && forall k :: k != key ==> (k in r' <==> k in r) && (k in r ==> r'[k] == r[k])
  {
  }

  /** And to its own, as long as that has not expired. */
  lemma BumpOwn(r: Redis, key: string, now: int, amount: int, ttl: int, end: int)
    requires amount > 0 && LivesUntil(r, key, end) && now < end <= now + 1000 * ttl
    requires key in r ==> r[key].value > 0
    ensures var r' := Bump(r, key, now, amount, ttl);
            Stored(r', key) == Stored(r, key) + amount && LivesUntil(r', key, end)
  {
  }

  /** A counter that the script does not name is left alone. */
  lemma ScriptElsewhere(r: Redis, dk: string, wk: string, lk: string, now: int, amount: nat, key: string)
    requires amount > 0 && AllPositive(r) && key != dk && key != wk && key != lk
    ensures var r' := RecordSpend(r, dk, wk, lk, now, amount);
            (key in r' <==> key in r) && (key in r ==> r'[key] == r[key])
  {
    BumpElsewhere(r, dk, now, amount, DAILY_TTL);
    BumpElsewhere(Bump(r, dk, now, amount, DAILY_TTL), wk, now, amount, WEEKLY_TTL);
  }

  /** The script raises the daily counter, if that is alive until `end`, and leaves it so. */
  lemma ScriptRaisesDaily(r: Redis, dk: string, wk: string, lk: string, now: int, amount: nat, end: int)
    requires amount > 0 && AllPositive(r) && dk != wk && dk != lk
    requires LivesUntil(r, dk, end) && now < end <= now + 1000 * DAILY_TTL
    ensures var r' := RecordSpend(r, dk, wk, lk, now, amount);
            Stored(r', dk) == Stored(r, dk) + amount && LivesUntil(r', dk, end)
  {
    var r1 := Bump(r, dk, now, amount, DAILY_TTL);
    BumpElsewhere(r, dk, now, amount, DAILY_TTL);
    BumpElsewhere(r1, wk, now, amount, WEEKLY_TTL);
    BumpOwn(r, dk, now, amount, DAILY_TTL, end);
  }

  lemma ScriptRaisesWeekly(r: Redis, dk: string, wk: string, lk: string, now: int, amount: nat, end: int)
    requires amount > 0 && AllPositive(r) && dk != wk && wk != lk
    requires LivesUntil(r, wk, end) && now < end <= now + 1000 * WEEKLY_TTL
    ensures var r' := RecordSpend(r, dk, wk, lk, now, amount);
            Stored(r', wk) == Stored(r, wk) + amount && LivesUntil(r', wk, end)
  {
    var r1 := Bump(r, dk, now, amount, DAILY_TTL);
    BumpElsewhere(r, dk, now, amount, DAILY_TTL);
    BumpOwn(r1, wk, now, amount, WEEKLY_TTL, end);
  }

  /** And the lifetime counter, which never expires. */
  lemma ScriptRaisesLifetime(r: Redis, dk: string, wk: string, lk: string, now: int, amount: nat)
    requires amount > 0 && AllPositive(r) && dk != lk && wk != lk && (lk in r ==> r[lk].expiresAt.None?)
    ensures var r' := RecordSpend(r, dk, wk, lk, now, amount);
            Stored(r', lk) == Stored(r, lk) + amount && (lk in r' ==> r'[lk].expiresAt.None?) && AllPositive(r')
  {
    BumpElsewhere(r, dk, now, amount, DAILY_TTL);
    BumpElsewhere(Bump(r, dk, now, amount, DAILY_TTL), wk, now, amount, WEEKLY_TTL);
  }

  lemma DayBounds(now: int)
    ensures DayOf(now) * DAY_MS <= now < (DayOf(now) + 1) * DAY_MS
    ensures MondayOf(DayOf(now)) * DAY_MS <= now < (MondayOf(DayOf(now)) + 7) * DAY_MS
  {
    MondayIsMonday(DayOf(now));
  }

  lemma SumsGrow(log: seq<Entry>, e: Entry, day: int)
    ensures DaySum(log + [e], day) == DaySum(log, day) + if e.day == day then e.amount else 0
    ensures WeekSum(log + [e], day) == WeekSum(log, day) + if MondayOf(e.day) == day then e.amount else 0
    ensures Total(log + [e]) == Total(log) + e.amount
  {
    assert (log + [e])[..|log|] == log;
  }

  lemma RecordDay(u: Setup, s: State, e: Entry, day: int)
    requires Agrees(u, s) && e.amount > 0 && NoLater(e.day, Today(s)) && Today(s) <= day
    ensures DailyAgrees(Recording(u, s, e).redis, u.keys.daily(day), Recording(u, s, e).log, day)
  {
    var dk, wk, lk, key := u.keys.daily(e.day), u.keys.weekly(e.day), u.keys.lifetime, u.keys.daily(day);
    assert DailyAgrees(s.redis, key, s.log, day);
    assert key == dk <==> day == e.day;
    assert key != wk && key != lk && dk != wk && dk != lk && wk != lk;
    SumsGrow(s.log, e, day);
    DayBounds(s.now);
    if day == e.day {
      ScriptRaisesDaily(s.redis, dk, wk, lk, s.now, e.amount, (day + 2) * DAY_MS);
    } else {
      ScriptElsewhere(s.redis, dk, wk, lk, s.now, e.amount, key);
    }
  }

  lemma SameWeekBetween(d: int, today: int, day: int)
    requires d <= today <= day && MondayOf(d) == MondayOf(day)
    ensures MondayOf(today) == MondayOf(day)
  {
    MondayIsMonday(d);
    MondayIsMonday(day);
    SameMonday(d, today);
  }

  lemma RecordWeek(u: Setup, s: State, e: Entry, day: int)
    requires Agrees(u, s) && e.amount > 0 && NoLater(e.day, Today(s)) && Today(s) <= day
    ensures WeeklyAgrees(Recording(u, s, e).redis, u.keys.weekly(day), Recording(u, s, e).log, day)
  {
    var dk, wk, lk, key := u.keys.daily(e.day), u.keys.weekly(e.day), u.keys.lifetime, u.keys.weekly(day);
    assert WeeklyAgrees(s.redis, key, s.log, day);
    assert key == wk <==> MondayOf(day) == MondayOf(e.day);
    assert key != dk && key != lk && dk != wk && dk != lk && wk != lk;
    SumsGrow(s.log, e, MondayOf(day));
    DayBounds(s.now);
    if MondayOf(day) == MondayOf(e.day) {
      SameWeekBetween(e.day, Today(s), day);
      ScriptRaisesWeekly(s.redis, dk, wk, lk, s.now, e.amount, (MondayOf(day) + 8) * DAY_MS);
    } else {
      ScriptElsewhere(s.redis, dk, wk, lk, s.now, e.amount, key);
    }
  }

  lemma RecordLifetime(u: Setup, s: State, e: Entry)
    requires Agrees(u, s) && e.amount > 0 && NoLater(e.day, Today(s))
    ensures LifetimeAgrees(Recording(u, s, e).redis, u.keys.lifetime, Recording(u, s, e).log)
    ensures AllPositive(Recording(u, s, e).redis)
  {
    var dk, wk, lk := u.keys.daily(e.day), u.keys.weekly(e.day), u.keys.lifetime;
    assert dk != wk && dk != lk && wk != lk;
    SumsGrow(s.log, e, 0);
    ScriptRaisesLifetime(s.redis, dk, wk, lk, s.now, e.amount);
  }

  /** Recording keeps counters and log in agreement, however long after its keys were chosen the script runs. */
  lemma RecordAgrees(u: Setup, s: State, e: Entry)
    requires Agrees(u, s) && e.amount > 0 && NoLater(e.day, Today(s))
    ensures Agrees(u, Recording(u, s, e))
  {
    var s' := Recording(u, s, e);
    forall day | Today(s') <= day ensures DailyAgrees(s'.redis, u.keys.daily(day), s'.log, day) {
      RecordDay(u, s, e, day);
    }
    forall day | Today(s') <= day ensures WeeklyAgrees(s'.redis, u.keys.weekly(day), s'.log, day) {
      RecordWeek(u, s, e, day);
    }
    RecordLifetime(u, s, e);
    assert forall i :: 0 <= i < |s'.log| ==> (i < |s.log| && s'.log[i] == s.log[i]) || s'.log[i] == e;
  }

  /** Steps that leave the counters alone. */
  lemma SameCountersAgree(u: Setup, s: State, s': State)
    requires Agrees(u, s) && s'.redis == s.redis && s'.log == s.log && s.now <= s'.now && ClockOk(s')
    ensures Agrees(u, s')
  {
    forall day | Today(s') <= day ensures DailyAgrees(s'.redis, u.keys.daily(day), s'.log, day) {
      assert Today(s) <= day;
    }
    forall day | Today(s') <= day ensures WeeklyAgrees(s'.redis, u.keys.weekly(day), s'.log, day) {
      assert Today(s) <= day;
    }
  }

  lemma WithoutIs<T>(s: seq<T>, i: nat, j: nat)
    requires i < |s| && j < |Without(s, i)|
    ensures Without(s, i)[j] == s[if j < i then j else j + 1]
  {
  }

  lemma StepKeepsClock(u: Setup, s: State, e: Event)
    requires ClockOk(s) && Step(u, s, e).Some? && !e.Record?
    ensures ClockOk(Step(u, s, e).value)
  {
    if e.Attempt? { AttemptKeepsClock(s, Step(u, s, e).value, e.i, EndingOf(e.net)); }
  }

  lemma AttemptKeepsClock(s: State, s': State, i: nat, ending: Ending)
    requires ClockOk(s) && i < |s.pending| && s'.pending == AfterAttempt(s.pending, i, ending, Today(s))
    requires s'.now == s.now && s'.checks == s.checks && s'.log == s.log
    ensures ClockOk(s')
  {
    if |s'.pending| < |s.pending| { WithoutKeepsClock(s, i); }
  }

  lemma WithoutKeepsClock(s: State, i: nat)
    requires ClockOk(s) && i < |s.pending|
    ensures ClockOk(s.(pending := Without(s.pending, i)))
  {
    forall j | 0 <= j < |s.pending| - 1 && Without(s.pending, i)[j].phase.Writing?
      ensures NoLater(Without(s.pending, i)[j].phase.day, Today(s)) && Without(s.pending, i)[j].amount > 0
    {
      WithoutIs(s.pending, i, j);
    }
  }

  lemma StepAgrees(u: Setup, s: State, e: Event)
    requires Agrees(u, s) && Step(u, s, e).Some?
    ensures Agrees(u, Step(u, s, e).value)
  {
    if e.Record? {
      var job, rest := s.pending[e.i], s.(pending := Without(s.pending, e.i));
      WithoutKeepsClock(s, e.i);
      SameCountersAgree(u, s, rest);
      RecordAgrees(u, rest, Entry(job.id, job.phase.day, job.amount));
    } else {
      StepKeepsClock(u, s, e);
      OnlyRecordWrites(u, s, e);
      SameCountersAgree(u, s, Step(u, s, e).value);
    }
  }

  lemma OnlyRecordWrites(u: Setup, s: State, e: Event)
    requires Step(u, s, e).Some? && !e.Record?
    ensures var s' := Step(u, s, e).value; s'.redis == s.redis && s'.log == s.log && s.now <= s'.now
  {
  }

  lemma {:induction false} ReplayAgrees(u: Setup, s: State, trace: seq<Event>)
    requires Agrees(u, s) && Replay(u, s, trace).Some?
    ensures Agrees(u, Replay(u, s, trace).value)
    decreases |trace|
  {
    if trace != [] {
      StepAgrees(u, s, trace[0]);
      ReplayAgrees(u, Step(u, s, trace[0]).value, trace[1..]);
    }
  }

  lemma StartAgrees(u: Setup, now: int)
    requires TellApart(u.keys) && Modern(DayOf(now))
    ensures Agrees(u, Start(now))
  {
  }

  /** States that some run reaches, for keys that tell days, weeks and kinds apart. */
  ghost predicate Reachable(u: Setup, s: State) {
    TellApart(u.keys) &&
    exists now: int, trace: seq<Event> :: Modern(DayOf(now)) && Replay(u, Start(now), trace) == Some(s)
  }

  lemma ReachableAgrees(u: Setup, s: State)
    requires Reachable(u, s)
    ensures Agrees(u, s)
  {
    var now: int, trace: seq<Event> :| Modern(DayOf(now)) && Replay(u, Start(now), trace) == Some(s);
    StartAgrees(u, now);
    ReplayAgrees(u, Start(now), trace);
  }

  /** What a read of the current keys sees at any time: exactly what was recorded under the keys of the
      current UTC day, of the current Monday-to-Sunday week and of all time. No time to live ends inside its
      period, and no script that was held up disturbs it. */
  lemma CountersAgree(u: Setup, s: State)
    requires Reachable(u, s)
    ensures Get(s.redis, u.keys.daily(Today(s)), s.now) == DaySum(s.log, Today(s))
    ensures Get(s.redis, u.keys.weekly(Today(s)), s.now) == WeekSum(s.log, MondayOf(Today(s)))
    ensures Get(s.redis, u.keys.lifetime, s.now) == Total(s.log)
  {
    ReachableAgrees(u, s);
    ReadAgrees(u, s);
  }

  lemma ReadAgrees(u: Setup, s: State)
    requires Agrees(u, s)
    ensures Get(s.redis, u.keys.daily(Today(s)), s.now) == DaySum(s.log, Today(s))
    ensures Get(s.redis, u.keys.weekly(Today(s)), s.now) == WeekSum(s.log, MondayOf(Today(s)))
    ensures Get(s.redis, u.keys.lifetime, s.now) == Total(s.log)
  {
    DayBounds(s.now);
    assert DailyAgrees(s.redis, u.keys.daily(Today(s)), s.log, Today(s));
    assert WeeklyAgrees(s.redis, u.keys.weekly(Today(s)), s.log, Today(s));
  }

  // ---- Overshoot

  /** The period a limit is about. */
  datatype Period = Day | Week | Ever

  /** Recorded under the keys of the current period. */
  function Recorded(s: State, p: Period): nat {
    match p
    case Day => DaySum(s.log, Today(s))
    case Week => WeekSum(s.log, MondayOf(Today(s)))
    case Ever => Total(s.log)
  }

  predicate SamePeriod(p: Period, a: int, b: int) {
    match p
    case Day => a == b
    case Week => MondayOf(a) == MondayOf(b)
    case Ever => true
  }

  function LimitOf(l: Limits, p: Period): Option<int> {
    match p
    case Day => l.daily
    case Week => l.weekly
    case Ever => l.lifetime
  }

  /** What is recorded in the period leaves room for the amount, or there is no limit. */
  predicate Fits(l: Limits, s: State, p: Period, amount: int) {
    LimitOf(l, p).Some? ==> Recorded(s, p) + amount <= LimitOf(l, p).value
  }

  predicate FitsOnce(l: Limits, amount: int) {
    l.perTransaction.Some? ==> amount <= l.perTransaction.value
  }

  predicate FitsAll(u: Setup, s: State, amount: int) {
    u.config.Some? ==>
      && FitsOnce(u.config.value, amount) && Fits(u.config.value, s, Day, amount)
      && Fits(u.config.value, s, Week, amount) && Fits(u.config.value, s, Ever, amount)
  }

  /** After any run, a check with the keys of today lets an amount through exactly when it is within the limit
      for one transaction and fits under every other limit with what is recorded in that limit's period; a
      refusal names the first limit, in the order transaction, day, week, lifetime, that it does not fit. */
  lemma AllowedExactlyWhen(u: Setup, s: State, amount: int)
    requires Reachable(u, s)
    ensures var verdict := Verdict(u, s, Today(s), amount);
            && (verdict.None? <==> FitsAll(u, s, amount))
            && (verdict.Some? ==>
                  && u.config.Some?
                  && var l := u.config.value;
                     match verdict.value
                     case PerTransaction => !FitsOnce(l, amount)
                     case Daily => FitsOnce(l, amount) && !Fits(l, s, Day, amount)
                     case Weekly => FitsOnce(l, amount) && Fits(l, s, Day, amount) && !Fits(l, s, Week, amount)
                     case Lifetime =>
                       && FitsOnce(l, amount) && Fits(l, s, Day, amount) && Fits(l, s, Week, amount)
                       && !Fits(l, s, Ever, amount))
  {
    CountersAgree(u, s);
  }

  /** And a request whose check is read at once joins the queue, for its first attempt, exactly then; otherwise
      the queue stays as it is. */
  lemma JoinsExactlyWhen(u: Setup, s: State, c: nat, amount: nat)
    requires Reachable(u, s) && c !in s.checks
    ensures Step(u, s, Check(c, amount)).Some?
    ensures var checking := Step(u, s, Check(c, amount)).value;
            && (u.config.Some? && !FitsOnce(u.config.value, amount) ==> checking == s)
            && (u.config.None? || FitsOnce(u.config.value, amount) ==>
                  && Step(u, checking, Read(c)).Some?
                  && var s' := Step(u, checking, Read(c)).value;
                     && s'.pending == s.pending
                          + (if FitsAll(u, s, amount) then [Job(s.nextId, amount, 1, Queued)] else [])
                     && s'.checks == s.checks && s'.redis == s.redis && s'.log == s.log && s'.tried == s.tried)
  {
    AllowedExactlyWhen(u, s, amount);
    if !TooMuch(u, amount) {
      var checking := Step(u, s, Check(c, amount)).value;
      assert Verdict(u, checking, Today(s), amount) == Verdict(u, s, Today(s), amount);
      assert checking.checks - {c} == s.checks;
    }
  }

  /** The most one request can be: the period's limit, or the per-transaction limit if that is less. */
  function Cap(l: Limits, limit: int): int {
    if l.perTransaction.Some? && l.perTransaction.value < limit then l.perTransaction.value else limit
  }

  /** Checks that will read the counters of a period that is over. */
  function Stale(s: State, p: Period): set<nat> {
    set c | c in s.checks && !SamePeriod(p, s.checks[c].day, Today(s))
  }

  predicate EachWithin(pending: seq<Job>, cap: int) {
    forall i :: 0 <= i < |pending| ==> pending[i].amount <= cap
  }

  lemma {:induction false} SumOfBound(pending: seq<Job>, cap: int)
    requires EachWithin(pending, cap)
    ensures SumOf(pending) <= |pending| * cap
  {
    if pending != [] {
      SumOfBound(pending[..|pending| - 1], cap);
      assert |pending| * cap == (|pending| - 1) * cap + cap;
    }
  }

  lemma CapTimes(few: int, many: int, cap: int)
    requires few <= many && cap >= 0
    ensures few * cap <= many * cap
  {
    assert (many - few) * cap >= 0 by { Nonnegative(many - few, cap); }
    assert many * cap == few * cap + (many - few) * cap;
  }

  lemma Nonnegative(x: int, y: int)
    requires x >= 0 && y >= 0
    ensures x * y >= 0
  {
  }

  lemma {:induction false} SumWithout(pending: seq<Job>, i: nat)
    requires i < |pending|
    ensures SumOf(Without(pending, i)) == SumOf(pending) - pending[i].amount
  {
    var last := |pending| - 1;
    if i < last {
      var fewer := Without(pending[..last], i);
      SumWithout(pending[..last], i);
      assert Without(pending, i) == fewer + [pending[last]];
      assert (fewer + [pending[last]])[..|fewer|] == fewer;
    } else {
      assert Without(pending, i) == pending[..last];
    }
  }

  lemma {:induction false} SumUpdate(pending: seq<Job>, i: nat, job: Job)
    requires i < |pending| && job.amount == pending[i].amount
    ensures SumOf(pending[i := job]) == SumOf(pending)
  {
    var last := |pending| - 1;
    if i < last {
      SumUpdate(pending[..last], i, job);
      assert pending[i := job][..last] == pending[..last][i := job];
    } else {
      assert pending[i := job][..last] == pending[..last];
    }
  }

  lemma {:induction false} NewDayIsEmpty(log: seq<Entry>, day: int)
    requires forall i :: 0 <= i < |log| ==> log[i].day < day
    ensures DaySum(log, day) == 0
  {
    if log != [] { NewDayIsEmpty(log[..|log| - 1], day); }
  }

  lemma {:induction false} NewWeekIsEmpty(log: seq<Entry>, monday: int)
    requires forall i :: 0 <= i < |log| ==> MondayOf(log[i].day) < monday
    ensures WeekSum(log, monday) == 0
  {
    if log != [] { NewWeekIsEmpty(log[..|log| - 1], monday); }
  }

  lemma MondaysAscend(a: int, b: int)
    requires a <= b
    ensures MondayOf(a) <= MondayOf(b)
  {
    MondayIsMonday(a);
    MondayIsMonday(b);
    SameMonday(a, b);
  }

  /** When the clock moves on, a period either goes on or starts afresh. */
  lemma TurnsOver(s: State, to: int, p: Period)
    requires s.now <= to && forall i :: 0 <= i < |s.log| ==> s.log[i].day <= Today(s)
    ensures Recorded(s.(now := to), p) == if SamePeriod(p, Today(s), DayOf(to)) then Recorded(s, p) else 0
  {
    var d, d' := Today(s), DayOf(to);
    if d < d' { NewDayIsEmpty(s.log, d'); }
    MondaysAscend(d, d');
    if MondayOf(d) < MondayOf(d') {
      forall i | 0 <= i < |s.log| ensures MondayOf(s.log[i].day) < MondayOf(d') { MondaysAscend(s.log[i].day, d); }
      NewWeekIsEmpty(s.log, MondayOf(d'));
    }
  }

  /** Recorded plus outstanding keeps within the limit and `room` caps more. */
  predicate Within(recorded: nat, pending: seq<Job>, limit: int, cap: int, room: int) {
    EachWithin(pending, cap) && recorded + SumOf(pending) <= limit + room * cap
  }

  /** One more request, which fits under the limit with what is recorded. */
  lemma FreshWithin(recorded: nat, pending: seq<Job>, limit: int, cap: int, room: int, job: Job)
    requires EachWithin(pending, cap) && cap >= 0 && |pending| <= room
    requires recorded + job.amount <= limit && job.amount <= cap
    ensures Within(recorded, pending + [job], limit, cap, room)
  {
    assert (pending + [job])[..|pending|] == pending;
    SumOfBound(pending, cap);
    CapTimes(|pending|, room, cap);
  }

  /** One more, which need not fit: it takes up room of its own. */
  lemma StaleWithin(recorded: nat, pending: seq<Job>, limit: int, cap: int, room: int, job: Job)
    requires Within(recorded, pending, limit, cap, room) && job.amount <= cap
    ensures Within(recorded, pending + [job], limit, cap, room + 1)
  {
    assert (pending + [job])[..|pending|] == pending;
    assert (room + 1) * cap == room * cap + cap;
  }

  lemma RoomierWithin(recorded: nat, pending: seq<Job>, limit: int, cap: int, room: int, more: int)
    requires Within(recorded, pending, limit, cap, room) && cap >= 0 && room <= more
    ensures Within(recorded, pending, limit, cap, more)
  {
    CapTimes(room, more, cap);
  }

  /** A fresh period: what is outstanding fits on its own. */
  lemma AfreshWithin(pending: seq<Job>, limit: int, cap: int, room: int)
    requires EachWithin(pending, cap) && 0 <= cap <= limit && |pending| <= room + 1
    ensures Within(0, pending, limit, cap, room)
  {
    SumOfBound(pending, cap);
    CapTimes(|pending| - 1, room, cap);
    assert |pending| * cap == (|pending| - 1) * cap + cap;
  }

  /** A request that moves from outstanding to recorded, or leaves. */
  lemma GoneWithin(recorded: nat, pending: seq<Job>, limit: int, cap: int, room: int, i: nat, moved: nat)
    requires Within(recorded, pending, limit, cap, room) && i < |pending| && moved <= pending[i].amount
    ensures Within(recorded + moved, Without(pending, i), limit, cap, room)
  {
    SumWithout(pending, i);
    forall j | 0 <= j < |pending| - 1 ensures Without(pending, i)[j].amount <= cap { WithoutIs(pending, i, j); }
  }

  /** The most checks and requests ever under way at once, counting at least one. */
  function AtOnce(s: State): nat { Max(s.peak, 1) }

  /** Room for one cap per check or request that may be under way beyond the first, less one for each check
      that is going to read an old counter. */
  function Room(s: State, p: Period): int { AtOnce(s) - 1 - |Stale(s, p)| }

  ghost predicate Bounded(u: Setup, s: State, p: Period) {
    && u.config.Some? && LimitOf(u.config.value, p).Some?
    && |s.checks| + |s.pending| <= AtOnce(s)
    && var limit := LimitOf(u.config.value, p).value;
       var cap := Cap(u.config.value, limit);
       0 <= cap && Within(Recorded(s, p), s.pending, limit, cap, Room(s, p))
  }

  /** A request that passed the check is within the cap, and if it read the current counters it fits under the
      limit with what is recorded. */
  lemma PassedFits(u: Setup, s: State, day: int, amount: nat, p: Period)
    requires Agrees(u, s) && u.config.Some? && LimitOf(u.config.value, p).Some? && Verdict(u, s, day, amount).None?
    requires NoLater(day, Today(s))
    ensures var limit := LimitOf(u.config.value, p).value;
            && amount <= Cap(u.config.value, limit)
            && (SamePeriod(p, day, Today(s)) ==> Recorded(s, p) + amount <= limit)
  {
    ReadAgrees(u, s);
    assert Get(s.redis, u.keys.daily(day), s.now) >= 0 && Get(s.redis, u.keys.weekly(day), s.now) >= 0;
    if SamePeriod(p, day, Today(s)) && p.Week? {
      assert u.keys.weekly(day) == u.keys.weekly(Today(s));
    }
  }

  lemma OneFewer<T, U>(m: map<T, U>, c: T)
    requires c in m
    ensures |m - {c}| == |m| - 1
  {
    assert (m - {c}).Keys == m.Keys - {c};
    assert |m.Keys - {c}| == |m.Keys| - 1;
  }

  lemma StaleBelowChecks(s: State, p: Period)
    ensures |Stale(s, p)| <= |s.checks|
  {
    SubsetSize(Stale(s, p), s.checks.Keys);
  }

  lemma CheckBounded(u: Setup, s: State, c: nat, amount: nat, p: Period)
    requires Bounded(u, s, p) && Step(u, s, Check(c, amount)).Some?
    ensures Bounded(u, Step(u, s, Check(c, amount)).value, p)
  {
    var s' := Step(u, s, Check(c, amount)).value;
    if s' != s {
      assert s'.checks.Keys == s.checks.Keys + {c};
      assert Stale(s', p) == Stale(s, p);
      var limit := LimitOf(u.config.value, p).value;
      RoomierWithin(Recorded(s, p), s.pending, limit, Cap(u.config.value, limit), Room(s, p), Room(s', p));
    }
  }

  /** Without check c: one fewer, and no more stale ones. */
  lemma CheckGone(s: State, c: nat, p: Period)
    requires c in s.checks
    ensures var s' := s.(checks := s.checks - {c});
            && |s'.checks| == |s.checks| - 1 && Stale(s', p) == Stale(s, p) - {c}
            && |Stale(s', p)| == |Stale(s, p)| - if c in Stale(s, p) then 1 else 0
  {
    OneFewer(s.checks, c);
    var s' := s.(checks := s.checks - {c});
    assert Stale(s', p) == Stale(s, p) - {c};
  }

  /** A stale check that passes: its request takes up the room that was kept for it. */
  lemma StaleBounded(u: Setup, s: State, over: State, c: nat, job: Job, p: Period)
    requires Bounded(u, s, p) && c in Stale(s, p) && over == s.(checks := s.checks - {c})
    requires job.amount <= Cap(u.config.value, LimitOf(u.config.value, p).value)
    ensures Bounded(u, over.(pending := s.pending + [job], nextId := s.nextId + 1), p)
  {
    var limit := LimitOf(u.config.value, p).value;
    CheckGone(s, c, p);
    StaleWithin(Recorded(s, p), s.pending, limit, Cap(u.config.value, limit), Room(s, p), job);
    assert Stale(over.(pending := s.pending + [job], nextId := s.nextId + 1), p) == Stale(over, p);
  }

  lemma FreshRoom(s: State, over: State, c: nat, p: Period)
    requires c in s.checks && c !in Stale(s, p) && over == s.(checks := s.checks - {c})
    requires |s.checks| + |s.pending| <= AtOnce(s)
    ensures |over.checks| == |s.checks| - 1 && |s.pending| <= Room(over, p)
  {
    CheckGone(s, c, p);
    StaleBelowChecks(over, p);
  }

  /** A check of the current period that passes: its request fits next to what is recorded. */
  lemma FreshBounded(u: Setup, s: State, over: State, c: nat, job: Job, p: Period)
    requires Bounded(u, s, p) && c in s.checks && c !in Stale(s, p) && over == s.(checks := s.checks - {c})
    requires job.amount <= Cap(u.config.value, LimitOf(u.config.value, p).value)
    requires Recorded(s, p) + job.amount <= LimitOf(u.config.value, p).value
    ensures Bounded(u, over.(pending := s.pending + [job], nextId := s.nextId + 1), p)
  {
    var limit := LimitOf(u.config.value, p).value;
    FreshRoom(s, over, c, p);
    FreshWithin(Recorded(s, p), s.pending, limit, Cap(u.config.value, limit), Room(over, p), job);
    assert Stale(over.(pending := s.pending + [job], nextId := s.nextId + 1), p) == Stale(over, p);
  }

  lemma PassBounded(u: Setup, s: State, c: nat, p: Period)
    requires Agrees(u, s) && Bounded(u, s, p) && c in s.checks
    requires Verdict(u, s, s.checks[c].day, s.checks[c].amount).None?
    ensures var job := Job(s.nextId, s.checks[c].amount, 1, Queued);
            Bounded(u, s.(checks := s.checks - {c}, pending := s.pending + [job], nextId := s.nextId + 1), p)
  {
    var job, over := Job(s.nextId, s.checks[c].amount, 1, Queued), s.(checks := s.checks - {c});
    PassedFits(u, s, s.checks[c].day, job.amount, p);
    if c in Stale(s, p) { StaleBounded(u, s, over, c, job, p); } else { FreshBounded(u, s, over, c, job, p); }
  }

  lemma ReadBounded(u: Setup, s: State, c: nat, p: Period)
    requires Agrees(u, s) && Bounded(u, s, p) && Step(u, s, Read(c)).Some?
    ensures Bounded(u, Step(u, s, Read(c)).value, p)
  {
    var refused := ReadSteps(u, s, c);
    if refused { AbandonBounded(u, s, c, p); } else { PassBounded(u, s, c, p); }
  }

  /** The two ways a read ends. */
  lemma ReadSteps(u: Setup, s: State, c: nat) returns (refused: bool)
    requires Step(u, s, Read(c)).Some?
    ensures c in s.checks && (refused <==> Verdict(u, s, s.checks[c].day, s.checks[c].amount).Some?)
    ensures var job, over := Job(s.nextId, s.checks[c].amount, 1, Queued), s.(checks := s.checks - {c});
            Step(u, s, Read(c)).value ==
              if refused then over else over.(pending := s.pending + [job], nextId := s.nextId + 1)
  {
    refused := Verdict(u, s, s.checks[c].day, s.checks[c].amount).Some?;
  }

  lemma AbandonBounded(u: Setup, s: State, c: nat, p: Period)
    requires Bounded(u, s, p)
    ensures Bounded(u, s.(checks := s.checks - {c}), p)
  {
    var over := s.(checks := s.checks - {c});
    if c in s.checks { CheckGone(s, c, p); } else { assert s.checks - {c} == s.checks; }
    var limit := LimitOf(u.config.value, p).value;
    RoomierWithin(Recorded(s, p), s.pending, limit, Cap(u.config.value, limit), Room(s, p), Room(over, p));
  }

  lemma SamePeriodBounded(u: Setup, s: State, to: int, p: Period)
    requires Bounded(u, s, p) && SamePeriod(p, Today(s), DayOf(to)) && Recorded(s.(now := to), p) == Recorded(s, p)
    ensures Bounded(u, s.(now := to), p)
  {
    assert Stale(s.(now := to), p) == Stale(s, p);
  }

  lemma NewPeriodBounded(u: Setup, s: State, to: int, p: Period)
    requires Bounded(u, s, p) && Recorded(s.(now := to), p) == 0
    ensures Bounded(u, s.(now := to), p)
  {
    var s', limit := s.(now := to), LimitOf(u.config.value, p).value;
    StaleBelowChecks(s', p);
    AfreshWithin(s.pending, limit, Cap(u.config.value, limit), Room(s', p));
  }

  lemma TickBounded(u: Setup, s: State, to: int, p: Period)
    requires ClockOk(s) && Bounded(u, s, p) && s.now <= to
    ensures Bounded(u, s.(now := to), p)
  {
    TurnsOver(s, to, p);
    if SamePeriod(p, Today(s), DayOf(to)) { SamePeriodBounded(u, s, to, p); } else { NewPeriodBounded(u, s, to, p); }
  }

  /** What an attempt leaves of the queue: the same requests, or one fewer. */
  lemma AttemptWithin(recorded: nat, pending: seq<Job>, limit: int, cap: int, room: int, i: nat, ending: Ending,
                      day: int)
    requires Within(recorded, pending, limit, cap, room) && i < |pending|
    ensures Within(recorded, AfterAttempt(pending, i, ending, day), limit, cap, room)
  {
    GoneWithin(recorded, pending, limit, cap, room, i, 0);
    SumUpdate(pending, i, pending[i].(attempt := pending[i].attempt + 1));
    SumUpdate(pending, i, pending[i].(phase := Writing(day)));
  }

  lemma AttemptBounded(u: Setup, s: State, i: nat, net: Network, p: Period)
    requires Bounded(u, s, p) && Step(u, s, Attempt(i, net)).Some?
    ensures Bounded(u, Step(u, s, Attempt(i, net)).value, p)
  {
    var limit := LimitOf(u.config.value, p).value;
    AttemptWithin(Recorded(s, p), s.pending, limit, Cap(u.config.value, limit), Room(s, p), i, EndingOf(net), Today(s));
  }

  lemma RecordedGrows(s: State, s': State, e: Entry, p: Period)
    requires s'.now == s.now && s'.log == s.log + [e]
    ensures Recorded(s', p) == Recorded(s, p) + if SamePeriod(p, e.day, Today(s)) then e.amount else 0
  {
    SumsGrow(s.log, e, Today(s));
    SumsGrow(s.log, e, MondayOf(Today(s)));
  }

  /** What recording does, but for the counters. */
  lemma RecordSteps(u: Setup, s: State, i: nat) returns (e: Entry)
    requires Step(u, s, Record(i)).Some?
    ensures i < |s.pending| && s.pending[i].phase.Writing?
    ensures e == Entry(s.pending[i].id, s.pending[i].phase.day, s.pending[i].amount)
    ensures var s' := Step(u, s, Record(i)).value;
            && s'.now == s.now && s'.checks == s.checks && s'.peak == s.peak && s'.nextId == s.nextId
            && s'.pending == Without(s.pending, i) && s'.log == s.log + [e] && s'.tried == s.tried
  {
    e := Entry(s.pending[i].id, s.pending[i].phase.day, s.pending[i].amount);
  }

  lemma MovedBounded(u: Setup, s: State, s': State, i: nat, moved: nat, p: Period)
    requires Bounded(u, s, p) && i < |s.pending| && moved <= s.pending[i].amount
    requires s'.now == s.now && s'.checks == s.checks && s'.peak == s.peak && s'.pending == Without(s.pending, i)
    requires Recorded(s', p) == Recorded(s, p) + moved
    ensures Bounded(u, s', p)
  {
    var limit := LimitOf(u.config.value, p).value;
    GoneWithin(Recorded(s, p), s.pending, limit, Cap(u.config.value, limit), Room(s, p), i, moved);
    assert Stale(s', p) == Stale(s, p);
  }

  lemma RecordBounded(u: Setup, s: State, i: nat, p: Period)
    requires Bounded(u, s, p) && Step(u, s, Record(i)).Some?
    ensures Bounded(u, Step(u, s, Record(i)).value, p)
  {
    var e := RecordSteps(u, s, i);
    var s' := Step(u, s, Record(i)).value;
    RecordedGrows(s, s', e, p);
    MovedBounded(u, s, s', i, if SamePeriod(p, e.day, Today(s)) then e.amount else 0, p);
  }

  lemma StepBounded(u: Setup, s: State, e: Event, p: Period)
    requires Agrees(u, s) && Bounded(u, s, p) && Step(u, s, e).Some?
    ensures Bounded(u, Step(u, s, e).value, p)
  {
    match e
    case Tick(to) => TickBounded(u, s, to, p);
    case Check(c, amount) => CheckBounded(u, s, c, amount, p);
    case Read(c) => ReadBounded(u, s, c, p);
    case Abandon(c) => AbandonBounded(u, s, c, p);
    case Attempt(i, net) => AttemptBounded(u, s, i, net, p);
    case Record(i) => RecordBounded(u, s, i, p);
  }

  lemma {:induction false} ReplayBounded(u: Setup, s: State, trace: seq<Event>, p: Period)
    requires Agrees(u, s) && Bounded(u, s, p) && Replay(u, s, trace).Some?
    ensures Bounded(u, Replay(u, s, trace).value, p)
    decreases |trace|
  {
    if trace != [] {
      StepAgrees(u, s, trace[0]);
      StepBounded(u, s, trace[0], p);
      ReplayBounded(u, Step(u, s, trace[0]).value, trace[1..], p);
    }
  }

  lemma StartBounded(u: Setup, now: int, p: Period)
    requires u.config.Some? && LimitOf(u.config.value, p).Some?
    requires Cap(u.config.value, LimitOf(u.config.value, p).value) >= 0
    ensures Bounded(u, Start(now), p)
  {
    assert Stale(Start(now), p) == {} && Room(Start(now), p) == 0;
  }

  lemma ReachableBounded(u: Setup, s: State, p: Period)
    requires Reachable(u, s)
    requires u.config.Some? && LimitOf(u.config.value, p).Some?
    requires Cap(u.config.value, LimitOf(u.config.value, p).value) >= 0
    ensures Bounded(u, s, p)
  {
    var now: int, trace: seq<Event> :| Modern(DayOf(now)) && Replay(u, Start(now), trace) == Some(s);
    StartAgrees(u, now);
    StartBounded(u, now, p);
    ReplayBounded(u, Start(now), trace, p);
  }

  lemma Alone(m: nat, cap: int)
    ensures m == 1 ==> (m - 1) * cap == 0
  {
  }

  /** Overshoot: when at most m checks and requests were ever under way at once, what is recorded in the
      current day, week or ever plus what is outstanding never exceeds the limit by more than m - 1 times the
      cap, however long checks and scripts are held up and across the turn of a day or a week. With m = 1 the
      limit is exact. */
  lemma OvershootIsBounded(u: Setup, s: State, p: Period)
    requires Reachable(u, s)
    requires u.config.Some? && LimitOf(u.config.value, p).Some?
    requires Cap(u.config.value, LimitOf(u.config.value, p).value) >= 0
    ensures var limit := LimitOf(u.config.value, p).value;
            && Recorded(s, p) + SumOf(s.pending) <= limit + (AtOnce(s) - 1) * Cap(u.config.value, limit)
            && (s.peak <= 1 ==> Recorded(s, p) + SumOf(s.pending) <= limit)
  {
    ReachableBounded(u, s, p);
    var limit := LimitOf(u.config.value, p).value;
    var cap := Cap(u.config.value, limit);
    RoomierWithin(Recorded(s, p), s.pending, limit, cap, Room(s, p), AtOnce(s) - 1);
    Alone(AtOnce(s), cap);
  }

  // ---- Runs

  /** A run written out: every state follows from the one before it by its event. */
  ghost predicate IsRun(u: Setup, now: int, states: seq<State>, trace: seq<Event>) {
    && |states| == |trace| + 1 && states[0] == Start(now)
    && forall i {:trigger trace[i]} :: 0 <= i < |trace| ==> Step(u, states[i], trace[i]) == Some(states[i + 1])
  }

  lemma {:induction false} RunIsReplay(u: Setup, now: int, states: seq<State>, trace: seq<Event>, n: nat)
    requires IsRun(u, now, states, trace) && n <= |trace|
    ensures Replay(u, Start(now), trace[..n]) == Some(states[n])
  {
    if n > 0 {
      RunIsReplay(u, now, states, trace, n - 1);
      assert trace[..n] == trace[..n - 1] + [trace[n - 1]];
      ReplayAppend(u, Start(now), trace[..n - 1], trace[n - 1]);
    }
  }

  lemma RunIsReachable(u: Setup, now: int, states: seq<State>, trace: seq<Event>)
    requires TellApart(u.keys) && Modern(DayOf(now)) && IsRun(u, now, states, trace)
    ensures Reachable(u, states[|trace|])
  {
    RunIsReplay(u, now, states, trace, |trace|);
    assert trace[..|trace|] == trace;
  }

  lemma {:induction false} ReplayAppend(u: Setup, s: State, trace: seq<Event>, e: Event)
    requires Replay(u, s, trace).Some?
    ensures Replay(u, s, trace + [e]) == Step(u, Replay(u, s, trace).value, e)
    decreases |trace|
  {
    if trace == [] {
      assert ([] + [e])[1..] == [];
    } else {
      assert (trace + [e])[1..] == trace[1..] + [e];
      ReplayAppend(u, Step(u, s, trace[0]).value, trace[1..], e);
    }
  }
}
