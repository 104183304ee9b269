/** Spend limits of one user and wallet: the counter keys, the counters in Redis, the check made when
    a transaction is queued and the record made when it is confirmed. */
module SpendSpec {
  import opened Common
  import opened Decimal
  import opened Calendar
  import opened WeekKeys
  import opened RedisCounters
  import opened Attempts

  // ---- Keys

  /** String(n).padStart(2, "0") */
  function Pad2(n: int): string {
    if 0 <= n < 10 then "0" + Print(n) else PrintInt(n)
  }

  function Prefix(kind: string, user: string, wallet: string): string {
    "spend:" + kind + ":" + user + ":" + wallet
  }

  function DailyKey(user: string, wallet: string, day: int): string {
    Prefix("daily", user, wallet) + (":" + DateName(CivilOf(day)))
  }

  function DateName(c: Civil): string {
    PrintInt(c.year) + MonthAndDay(c)
  }

  function MonthAndDay(c: Civil): string {
    "-" + Pad2(c.month + 1) + "-" + Pad2(c.dayOfMonth)
  }

  function WeeklyKey(user: string, wallet: string, day: int): string {
    Prefix("weekly", user, wallet) + (":" + WeekName(WeekOf(day)))
  }

  function WeekName(w: WeekDate): string {
    PrintInt(w.year) + ("-W" + Pad2(w.week))
  }

  function LifetimeKey(user: string, wallet: string): string {
    Prefix("lifetime", user, wallet)
  }

  lemma Pad2Injective(a: nat, b: nat)
    requires a < 100 && b < 100
    ensures |Pad2(a)| == 2 && (Pad2(a) == Pad2(b) ==> a == b)
  {
    assert Pow10(2) == 100;
    PrintLength(a, 2);
    PrintLength(b, 2);
    PrintParse(a);
    PrintParse(b);
    LongEnough(a);
    LongEnough(b);
    if Pad2(a) == Pad2(b) {
      Pad2Value(a);
      Pad2Value(b);
    }
  }

  lemma LongEnough(n: nat)
    ensures n >= 10 ==> |Print(n)| >= 2
  {
    PrintParse(n / 10);
  }

  lemma Pad2Value(n: nat)
    ensures AllDigits(Pad2(n)) && Parse(Pad2(n)) == n
  {
    PrintParse(n);
    if n < 10 {
      LeadingZero("0" + Print(n));
      assert ("0" + Print(n))[1..] == Print(n);
    }
  }

  lemma SamePrefix(prefix: string, a: string, b: string)
    requires prefix + a == prefix + b
    ensures a == b
  {
    assert a == (prefix + a)[|prefix|..] && b == (prefix + b)[|prefix|..];
  }

  /** Years with tails of one length agree only in both year and tail. */
  lemma SplitYear(y1: int, tail1: string, y2: int, tail2: string)
    requires |tail1| == |tail2| && PrintInt(y1) + tail1 == PrintInt(y2) + tail2
    ensures y1 == y2 && tail1 == tail2
  {
    var a, b := PrintInt(y1) + tail1, PrintInt(y2) + tail2;
    var n := |a| - |tail1|;
    assert tail1 == a[n..] && tail2 == b[n..];
    assert PrintInt(y1) == a[..n] && PrintInt(y2) == b[..n];
    PrintIntInjective(y1, y2);
  }

  lemma MonthAndDayInjective(c: Civil, d: Civil)
    requires c.month <= 11 && c.dayOfMonth <= 31 && d.month <= 11 && d.dayOfMonth <= 31
    ensures |MonthAndDay(c)| == |MonthAndDay(d)| == 6
    ensures MonthAndDay(c) == MonthAndDay(d) ==> c.month == d.month && c.dayOfMonth == d.dayOfMonth
  {
    Pad2Injective(c.month + 1, d.month + 1);
    Pad2Injective(c.dayOfMonth, d.dayOfMonth);
    Pad2Injective(d.month + 1, c.month + 1);
    Pad2Injective(d.dayOfMonth, c.dayOfMonth);
    assert Pad2(c.month + 1) == MonthAndDay(c)[1..3] && Pad2(d.month + 1) == MonthAndDay(d)[1..3];
    assert Pad2(c.dayOfMonth) == MonthAndDay(c)[4..] && Pad2(d.dayOfMonth) == MonthAndDay(d)[4..];
  }

  /** Two days share a daily key exactly when they are the same day. */
  lemma DailyKeyIdentifiesDay(user: string, wallet: string, a: int, b: int)
    ensures DailyKey(user, wallet, a) == DailyKey(user, wallet, b) <==> a == b
  {
    var c, d := CivilOf(a), CivilOf(b);
    MonthAndDayInjective(c, d);
    if DailyKey(user, wallet, a) == DailyKey(user, wallet, b) {
      SamePrefix(Prefix("daily", user, wallet), ":" + DateName(c), ":" + DateName(d));
      SamePrefix(":", DateName(c), DateName(d));
      SplitYear(c.year, MonthAndDay(c), d.year, MonthAndDay(d));
    }
  }

  /** Two plain days share a weekly key exactly when they lie in the same Monday-to-Sunday week. */
  lemma WeeklyKeyIdentifiesWeek(user: string, wallet: string, a: int, b: int)
    requires Plain(a) && Plain(b)
    ensures WeeklyKey(user, wallet, a) == WeeklyKey(user, wallet, b) <==> MondayOf(a) == MondayOf(b)
  {
    WeekDateIdentifiesWeek(a, b);
    WeekDateIdentifiesWeek(b, a);
    WeeklyKeysByName(user, wallet, a, b);
    if WeeklyKey(user, wallet, a) == WeeklyKey(user, wallet, b) { WeekNameInjective(WeekOf(a), WeekOf(b)); }
  }

  /** Every day of the years 0 to 99 shares its weekly key with a day of another week, 1900 years on. */
  lemma WeeklyKeysCollide(user: string, wallet: string, day: int) returns (later: int)
    requires TwoDigit(YearOf(day))
    ensures WeeklyKey(user, wallet, day) == WeeklyKey(user, wallet, later) && MondayOf(day) != MondayOf(later)
  {
    later := CenturiesCollide(day);
  }

  /** And a week of those years can have two keys. */
  lemma WeeklyKeySplits(user: string, wallet: string) returns (monday: int, sunday: int)
    ensures MondayOf(monday) == MondayOf(sunday) && WeeklyKey(user, wallet, monday) != WeeklyKey(user, wallet, sunday)
  {
    monday, sunday := OneWeekSplits();
    WeeklyKeysByName(user, wallet, monday, sunday);
    if WeeklyKey(user, wallet, monday) == WeeklyKey(user, wallet, sunday) {
      WeekNameInjective(WeekOf(monday), WeekOf(sunday));
    }
  }

  lemma WeekNameInjective(v: WeekDate, w: WeekDate)
    requires 0 <= v.week < 100 && 0 <= w.week < 100 && WeekName(v) == WeekName(w)
    ensures v == w
  {
    Pad2Injective(v.week, w.week);
    Pad2Injective(w.week, v.week);
    SplitYear(v.year, "-W" + Pad2(v.week), w.year, "-W" + Pad2(w.week));
    SamePrefix("-W", Pad2(v.week), Pad2(w.week));
  }

  /** Weekly keys agree when the names of the weeks do. */
  lemma WeeklyKeysByName(user: string, wallet: string, a: int, b: int)
    ensures WeeklyKey(user, wallet, a) == WeeklyKey(user, wallet, b) <==> WeekName(WeekOf(a)) == WeekName(WeekOf(b))
  {
    if WeeklyKey(user, wallet, a) == WeeklyKey(user, wallet, b) {
      SamePrefix(Prefix("weekly", user, wallet), ":" + WeekName(WeekOf(a)), ":" + WeekName(WeekOf(b)));
      SamePrefix(":", WeekName(WeekOf(a)), WeekName(WeekOf(b)));
    }
  }

  /** The three counters of one user and wallet: daily and weekly keys by day, and the lifetime key. */
  datatype Keys = Keys(daily: int -> string, weekly: int -> string, lifetime: string)

  function KeysOf(user: string, wallet: string): Keys {
    Keys(day => DailyKey(user, wallet, day), day => WeeklyKey(user, wallet, day), LifetimeKey(user, wallet))
  }

  /** Keys tell days, weeks and kinds apart and nothing more; weeks, from the year 101 on. */
  ghost predicate TellApart(k: Keys) {
    DaysApart(k) && WeeksApart(k) && KindsApart(k)
  }

  ghost predicate DaysApart(k: Keys) {
    forall a, b :: k.daily(a) == k.daily(b) <==> a == b
  }

  ghost predicate WeeksApart(k: Keys) {
    forall a, b :: Modern(a) && Modern(b) ==> (k.weekly(a) == k.weekly(b) <==> MondayOf(a) == MondayOf(b))
  }

  ghost predicate KindsApart(k: Keys) {
    && (forall a, b :: k.daily(a) != k.weekly(b))
    && (forall a :: k.daily(a) != k.lifetime && k.weekly(a) != k.lifetime)
  }

  lemma KeysTellApart(user: string, wallet: string)
    ensures TellApart(KeysOf(user, wallet))
  {
    var k := KeysOf(user, wallet);
    forall a, b ensures k.daily(a) == k.daily(b) <==> a == b {
      DailyKeyIdentifiesDay(user, wallet, a, b);
    }
    forall a, b | Modern(a) && Modern(b) ensures k.weekly(a) == k.weekly(b) <==> MondayOf(a) == MondayOf(b) {
      ModernIsPlain(a);
      ModernIsPlain(b);
      WeeklyKeyIdentifiesWeek(user, wallet, a, b);
    }
    forall a, b ensures k.daily(a) != k.weekly(b) && k.daily(a) != k.lifetime && k.weekly(b) != k.lifetime {
      KindsDiffer(user, wallet, a, b);
    }
  }

  /** Keys of kinds with different initials differ. */
  lemma InitialsDiffer(kind: string, rest: string, kind': string, rest': string, user: string, wallet: string)
    requires kind != "" && kind' != "" && kind[0] != kind'[0]
    ensures Prefix(kind, user, wallet) + rest != Prefix(kind', user, wallet) + rest'
  {
    var a, b := Prefix(kind, user, wallet) + rest, Prefix(kind', user, wallet) + rest';
    assert a == "spend:" + (kind + (":" + user + ":" + wallet + rest));
    assert b == "spend:" + (kind' + (":" + user + ":" + wallet + rest'));
    assert a[6] == kind[0] && b[6] == kind'[0];
  }

  lemma DailyRest(user: string, wallet: string, day: int) returns (rest: string)
    ensures DailyKey(user, wallet, day) == Prefix("daily", user, wallet) + rest
  {
    rest := ":" + DateName(CivilOf(day));
  }

  lemma WeeklyRest(user: string, wallet: string, day: int) returns (rest: string)
    ensures WeeklyKey(user, wallet, day) == Prefix("weekly", user, wallet) + rest
  {
    rest := ":" + WeekName(WeekOf(day));
  }

  lemma KindsDiffer(user: string, wallet: string, a: int, b: int)
    ensures DailyKey(user, wallet, a) != WeeklyKey(user, wallet, b)
    ensures DailyKey(user, wallet, a) != LifetimeKey(user, wallet)
    ensures WeeklyKey(user, wallet, b) != LifetimeKey(user, wallet)
  {
    var daily := DailyRest(user, wallet, a);
    var weekly := WeeklyRest(user, wallet, b);
    assert LifetimeKey(user, wallet) == Prefix("lifetime", user, wallet) + "";
    InitialsDiffer("daily", daily, "weekly", weekly, user, wallet);
    InitialsDiffer("daily", daily, "lifetime", "", user, wallet);
    InitialsDiffer("weekly", weekly, "lifetime", "", user, wallet);
  }

  // ---- Counters

  const DAILY_TTL: int := 172800
  const WEEKLY_TTL: int := 691200

  /** One counter of the script: increment, and set the time to live if that made it the amount. */
  function Bump(r: Redis, key: string, now: int, amount: int, ttl: int): Redis {
    var incremented := IncrBy(r, key, now, amount);
    if incremented[key].value == amount then Expire(incremented, key, now, ttl) else incremented
  }

  /** The script recordSpend runs, as one atomic step. */
  function RecordSpend(r: Redis, dailyKey: string, weeklyKey: string, lifetimeKey: string, now: int,
      amount: int): Redis {
    var r1 := Bump(r, dailyKey, now, amount, DAILY_TTL);
    var r2 := Bump(r1, weeklyKey, now, amount, WEEKLY_TTL);
    IncrBy(r2, lifetimeKey, now, amount)
  }

  // ---- The check

  datatype Limits = Limits(perTransaction: Option<int>, daily: Option<int>, weekly: Option<int>, lifetime: Option<int>)

  datatype Reason = PerTransaction | Daily | Weekly | Lifetime

  predicate Exceeds(limit: Option<int>, total: int) { limit.Some? && total > limit.value }

  /** None when the transaction is allowed, otherwise which limit refuses it. */
  function CheckSpendLimit(config: Option<Limits>, dailySpend: int, weeklySpend: int, lifetimeSpend: int,
      amount: int): Option<Reason> {
    if config.None? then None
    else
      var l := config.value;
      if Exceeds(l.perTransaction, amount) then Some(PerTransaction)
      else if Exceeds(l.daily, dailySpend + amount) then Some(Daily)
      else if Exceeds(l.weekly, weeklySpend + amount) then Some(Weekly)
      else if Exceeds(l.lifetime, lifetimeSpend + amount) then Some(Lifetime)
      else None
  }

  // ---- The machine

  /** A check whose keys are chosen and whose read of the counters is still to come. */
  datatype InFlight = InFlight(amount: nat, day: int)

  /** Waiting for its next attempt, or seen to succeed and about to be recorded under the keys of a day. */
  datatype Phase = Queued | Writing(day: int)

  /** A request that passed the check, and the number its next attempt will have. */
  datatype Job = Job(id: nat, amount: nat, attempt: Ordinal, phase: Phase)

  /** One finished attempt. */
  datatype Tried = Tried(id: nat, amount: nat, net: Network)

  /** One run of the script: for which request, under the keys of which day, and how much. */
  datatype Entry = Entry(id: nat, day: int, amount: nat)

  /** `log` has what was recorded, `tried` every attempt so far, and `peak` the most checks and requests that
      were ever under way at once; the three are history. */
  datatype State = State(redis: Redis, now: int, checks: map<nat, InFlight>, pending: seq<Job>, nextId: nat, peak: nat,
                         log: seq<Entry>, tried: seq<Tried>)

  datatype Event =
    | Tick(to: int)
    | Check(c: nat, amount: nat)        // the per-transaction limit, and the keys
    | Read(c: nat)                      // the counters, the other limits, and a place in the queue
    | Abandon(c: nat)                   // the check dies
    | Attempt(i: nat, net: Network)     // an attempt at the i-th request comes to its end
    | Record(i: nat)                    // the script for the i-th request

  /** Whose counters, under which limits. */
  datatype Setup = Setup(keys: Keys, config: Option<Limits>)

  /** What the counters of that day say at this moment. */
  function Verdict(u: Setup, s: State, day: int, amount: int): Option<Reason> {
    CheckSpendLimit(u.config, Get(s.redis, u.keys.daily(day), s.now), Get(s.redis, u.keys.weekly(day), s.now),
                    Get(s.redis, u.keys.lifetime, s.now), amount)
  }

  function Recording(u: Setup, s: State, e: Entry): State {
    s.(redis := RecordSpend(s.redis, u.keys.daily(e.day), u.keys.weekly(e.day), u.keys.lifetime, s.now, e.amount),
       log := s.log + [e])
  }

  function Start(now: int): State { State(map[], now, map[], [], 0, 0, [], []) }

  function Without<T>(s: seq<T>, i: nat): seq<T>
    requires i < |s|
  {
    s[..i] + s[i + 1..]
  }

  function Max(a: nat, b: nat): nat { if a < b then b else a }

  predicate TooMuch(u: Setup, amount: int) {
    u.config.Some? && Exceeds(u.config.value.perTransaction, amount)
  }

  /** A success that was seen is to be recorded, if there is anything to record. Any other success takes the
      request off the queue; so does an exception that is not worth another attempt, or the last attempt. */
  function AfterAttempt(pending: seq<Job>, i: nat, ending: Ending, day: int): seq<Job>
    requires i < |pending|
  {
    var job := pending[i];
    if ending == Done(true) && job.amount > 0 then pending[i := job.(phase := Writing(day))]
    else if ending.Threw? && ending.retryable && job.attempt < ATTEMPTS then
      pending[i := job.(attempt := job.attempt + 1)]
    else Without(pending, i)
  }

  function Step(u: Setup, s: State, e: Event): Option<State> {
    match e
    case Tick(to) => if s.now <= to then Some(s.(now := to)) else None
    case Check(c, amount) =>
      if c in s.checks then None
      else if TooMuch(u, amount) then Some(s)
      else Some(s.(checks := s.checks[c := InFlight(amount, DayOf(s.now))],
                   peak := Max(s.peak, |s.checks| + 1 + |s.pending|)))
    case Read(c) =>
      if c !in s.checks then None
      else
        var check, over := s.checks[c], s.(checks := s.checks - {c});
        Some(if Verdict(u, s, check.day, check.amount).Some? then over
             else over.(pending := s.pending + [Job(s.nextId, check.amount, 1, Queued)], nextId := s.nextId + 1))
    case Abandon(c) => Some(s.(checks := s.checks - {c}))
    case Attempt(i, net) =>
      if i >= |s.pending| || !s.pending[i].phase.Queued? || !Plausible(net) then None
      else Some(s.(pending := AfterAttempt(s.pending, i, EndingOf(net), DayOf(s.now)),
                   tried := s.tried + [Tried(s.pending[i].id, s.pending[i].amount, net)]))
    case Record(i) =>
      if i >= |s.pending| || !s.pending[i].phase.Writing? then None
      else
        var job := s.pending[i];
        Some(Recording(u, s.(pending := Without(s.pending, i)), Entry(job.id, job.phase.day, job.amount)))
  }

  function Replay(u: Setup, s: State, trace: seq<Event>): Option<State>
    decreases |trace|
  {
    if trace == [] then Some(s)
    else match Step(u, s, trace[0])
      case None => None
      case Some(next) => Replay(u, next, trace[1..])
  }

  // ---- What the log says

  function DaySum(log: seq<Entry>, day: int): nat {
    if log == [] then 0
    else DaySum(log[..|log| - 1], day) + (if log[|log| - 1].day == day then log[|log| - 1].amount else 0)
  }

  function WeekSum(log: seq<Entry>, monday: int): nat {
    if log == [] then 0
    else WeekSum(log[..|log| - 1], monday)
         + (if MondayOf(log[|log| - 1].day) == monday then log[|log| - 1].amount else 0)
  }

  function Total(log: seq<Entry>): nat {
    if log == [] then 0 else Total(log[..|log| - 1]) + log[|log| - 1].amount
  }

  /** How often the request was recorded. */
  function RecordTimes(log: seq<Entry>, id: nat): nat {
    if log == [] then 0 else RecordTimes(log[..|log| - 1], id) + (if log[|log| - 1].id == id then 1 else 0)
  }

  function SumOf(pending: seq<Job>): nat {
    if pending == [] then 0 else SumOf(pending[..|pending| - 1]) + pending[|pending| - 1].amount
  }

  /** Seen to succeed and not yet recorded. */
  function WritingSum(pending: seq<Job>): nat {
    if pending == [] then 0
    else WritingSum(pending[..|pending| - 1])
         + (if pending[|pending| - 1].phase.Writing? then pending[|pending| - 1].amount else 0)
  }

  // ---- What the attempts say

  /** What went through on the ledger. */
  function LandedSum(tried: seq<Tried>): nat {
    if tried == [] then 0
    else LandedSum(tried[..|tried| - 1])
         + (if tried[|tried| - 1].net.fate.Landed? then tried[|tried| - 1].amount else 0)
  }

  /** What went through without the worker seeing it. */
  function BlindSum(tried: seq<Tried>): nat {
    if tried == [] then 0
    else BlindSum(tried[..|tried| - 1])
         + (if Blind(tried[|tried| - 1].net) then tried[|tried| - 1].amount else 0)
  }

  function TriedTimes(tried: seq<Tried>, id: nat): nat {
    if tried == [] then 0
    else TriedTimes(tried[..|tried| - 1], id) + (if tried[|tried| - 1].id == id then 1 else 0)
  }

  /** How often the request's transaction landed. */
  function LandedTimes(tried: seq<Tried>, id: nat): nat {
    if tried == [] then 0
    else LandedTimes(tried[..|tried| - 1], id)
         + (if tried[|tried| - 1].id == id && tried[|tried| - 1].net.fate.Landed? then 1 else 0)
  }

  function BlindTimes(tried: seq<Tried>, id: nat): nat {
    if tried == [] then 0
    else BlindTimes(tried[..|tried| - 1], id)
         + (if tried[|tried| - 1].id == id && Blind(tried[|tried| - 1].net) then 1 else 0)
  }

  /** How often an attempt at the request was seen to succeed. */
  function SeenTimes(tried: seq<Tried>, id: nat): nat {
    if tried == [] then 0
    else SeenTimes(tried[..|tried| - 1], id)
         + (if tried[|tried| - 1].id == id && EndingOf(tried[|tried| - 1].net) == Done(true) then 1 else 0)
  }
}
