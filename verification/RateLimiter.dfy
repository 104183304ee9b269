/** The fixed-window rate limiter, for one identifier, endpoint and configuration, as a step machine: any
    number of requests are under way at once, and between choosing its key, counting itself and setting the
    expiry a request may be held up for any time, or die. */
module RateLimiter {
  import opened Common
  import opened Decimal
  import opened RedisCounters

  datatype RateLimitConfig = RateLimitConfig(windowMs: int, maxRequests: nat) {
    predicate Valid() { windowMs > 0 }
    function WindowOf(now: int): int
      requires Valid()
    {
      now / windowMs
    }
  }

  datatype RateLimitResult = RateLimitResult(allowed: bool, limit: nat, remaining: nat, resetInSeconds: int)

  function BuildKey(identifier: string, endpoint: string, window: int): string {
    "ratelimit:" + identifier + ":" + endpoint + ":" + PrintInt(window)
  }

  /** Keys of different windows differ. */
  lemma KeyIdentifiesWindow(identifier: string, endpoint: string, v: int, w: int)
    ensures BuildKey(identifier, endpoint, v) == BuildKey(identifier, endpoint, w) <==> v == w
  {
    if BuildKey(identifier, endpoint, v) == BuildKey(identifier, endpoint, w) {
      var n := |"ratelimit:" + identifier + ":" + endpoint + ":"|;
      assert BuildKey(identifier, endpoint, v)[n..] == PrintInt(v);
      assert BuildKey(identifier, endpoint, w)[n..] == PrintInt(w);
      PrintIntInjective(v, w);
    }
  }

  function CeilThousandths(ms: int): int { (ms + 999) / 1000 }

  lemma WindowBounds(config: RateLimitConfig, now: int)
    requires config.Valid()
    ensures config.WindowOf(now) * config.windowMs <= now < (config.WindowOf(now) + 1) * config.windowMs
  {
    var w, q := config.windowMs, now / config.windowMs;
    assert now == w * q + now % w;
    assert (q + 1) * w == q * w + w;
  }

  lemma WindowAscends(config: RateLimitConfig, a: int, b: int)
    requires config.Valid() && a <= b
    ensures config.WindowOf(a) <= config.WindowOf(b)
  {
    WindowBounds(config, a);
    WindowBounds(config, b);
    if config.WindowOf(b) < config.WindowOf(a) {
      Products(config.windowMs, config.WindowOf(b) + 1, config.WindowOf(a));
    }
  }

  lemma MultipleIsStart(config: RateLimitConfig, w: int)
    requires config.Valid()
    ensures config.WindowOf(w * config.windowMs) == w
  {
    WindowBounds(config, w * config.windowMs);
    var q := config.WindowOf(w * config.windowMs);
    if q < w { Products(config.windowMs, q + 1, w); } else if w < q { Products(config.windowMs, w + 1, q); }
  }

  lemma Products(x: int, a: int, b: int)
    requires x > 0 && a <= b
    ensures a * x <= b * x && (a < b ==> a * x + x <= b * x)
  {
    assert b * x == a * x + (b - a) * x;
    Nonnegative(x, b - a);
    if a < b {
      assert (b - a) * x == (b - a - 1) * x + x;
      Nonnegative(x, b - a - 1);
    }
  }

  lemma Nonnegative(x: int, y: int)
    requires x >= 0 && y >= 0
    ensures y * x >= 0
  {
  }

  // ---- The machine

  datatype Setup = Setup(identifier: string, endpoint: string, config: RateLimitConfig) {
    function Key(window: int): string { BuildKey(identifier, endpoint, window) }
  }

  /** Where a request stands: its key is chosen, or it has counted 1 and is to set the expiry. */
  datatype Pc = Idle | Chosen(window: int) | First(window: int)

  /** One INCR that landed: for which window, when, what it returned, and whether the counter had been there
      and was gone. */
  datatype Seen = Seen(window: int, at: int, count: int, late: bool)

  datatype State = State(redis: Redis, now: int, calls: map<nat, Pc>, log: seq<Seen>) {
    function PcOf(c: nat): Pc { if c in calls then calls[c] else Idle }
    function Go(c: nat, pc: Pc): State { this.(calls := calls[c := pc]) }
  }

  datatype Event = Tick(to: int) | Choose(c: nat) | Count(c: nat) | SetExpiry(c: nat) | Die(c: nat)

  function Start(now: int): State { State(map[], now, map[], []) }

  /** The INCR of window w. */
  function Incremented(u: Setup, s: State, w: int): State {
    var key := u.Key(w);
    var redis := IncrBy(s.redis, key, s.now, 1);
    s.(redis := redis, log := s.log + [Seen(w, s.now, redis[key].value, key in s.redis && !Live(s.redis, key, s.now))])
  }

  function Step(u: Setup, s: State, e: Event): Option<State>
    requires u.config.Valid()
  {
    match e
    case Tick(to) => if s.now <= to then Some(s.(now := to)) else None
    case Choose(c) => if s.PcOf(c).Idle? then Some(s.Go(c, Chosen(u.config.WindowOf(s.now)))) else None
    case Count(c) =>
      (match s.PcOf(c)
       case Chosen(w) =>
         var counted := Incremented(u, s, w);
         Some(counted.Go(c, if counted.redis[u.Key(w)].value == 1 then First(w) else Idle))
       case _ => None)
    case SetExpiry(c) =>
      (match s.PcOf(c)
       case First(w) =>
         Some(s.(redis := Expire(s.redis, u.Key(w), s.now, CeilThousandths(u.config.windowMs))).Go(c, Idle))
       case _ => None)
    case Die(c) => Some(s.Go(c, Idle))
  }

  function Replay(u: Setup, s: State, trace: seq<Event>): Option<State>
    requires u.config.Valid()
    decreases |trace|
  {
    if trace == [] then Some(s)
    else match Step(u, s, trace[0])
      case None => None
      case Some(next) => Replay(u, next, trace[1..])
  }

  ghost predicate Reachable(u: Setup, s: State) {
    u.config.Valid() && exists now: int, trace: seq<Event> :: Replay(u, Start(now), trace) == Some(s)
  }

  // ---- What the log says

  function RequestsIn(log: seq<Seen>, w: int): nat {
    if log == [] then 0 else RequestsIn(log[..|log| - 1], w) + (if log[|log| - 1].window == w then 1 else 0)
  }

  function AdmittedIn(log: seq<Seen>, max: nat, w: int): nat {
    if log == [] then 0
    else AdmittedIn(log[..|log| - 1], max, w)
         + (if log[|log| - 1].window == w && log[|log| - 1].count <= max then 1 else 0)
  }

  function LateIn(log: seq<Seen>, w: int): nat {
    if log == [] then 0
    else LateIn(log[..|log| - 1], w) + (if log[|log| - 1].window == w && log[|log| - 1].late then 1 else 0)
  }

  /** Admitted requests of window w that landed while it lasted. */
  function PromptIn(c: RateLimitConfig, log: seq<Seen>, w: int): nat
    requires c.Valid()
  {
    if log == [] then 0
    else PromptIn(c, log[..|log| - 1], w)
         + (if log[|log| - 1].window == w == c.WindowOf(log[|log| - 1].at) && log[|log| - 1].count <= c.maxRequests
            then 1 else 0)
  }

  /** Admitted requests that landed with from <= at < to. */
  function AdmittedBetween(log: seq<Seen>, max: nat, from: int, to: int): nat {
    if log == [] then 0
    else AdmittedBetween(log[..|log| - 1], max, from, to)
         + (if from <= log[|log| - 1].at < to && log[|log| - 1].count <= max then 1 else 0)
  }

  /** Those of them that landed after their window was over. */
  function StraysBetween(c: RateLimitConfig, log: seq<Seen>, from: int, to: int): nat
    requires c.Valid()
  {
    if log == [] then 0
    else StraysBetween(c, log[..|log| - 1], from, to)
         + (if from <= log[|log| - 1].at < to && log[|log| - 1].count <= c.maxRequests
               && c.WindowOf(log[|log| - 1].at) != log[|log| - 1].window then 1 else 0)
  }

  function Min(a: nat, b: nat): nat { if a <= b then a else b }

  // ---- The invariant

  /** Counter and tallies of one window. A counter lives at least to the window's end. While none has landed
      late, the counter holds all requests and admits what fits; once one has, requests beyond the maximum
      mean that too many were admitted. */
  predicate Tallied(stored: Option<Counter>, end: int, requests: nat, admitted: nat, late: nat, prompt: nat, max: nat) {
    && (stored.None? ==> requests == 0)
    && (stored.Some? ==>
          && 1 <= stored.value.value <= requests
          && (stored.value.expiresAt.Some? ==> stored.value.expiresAt.value >= end))
    && (late == 0 ==> stored.Some? ==> stored.value.value == requests)
    && (late == 0 ==> admitted == Min(requests, max))
    && (late > 0 ==> stored.Some? && stored.value.value < requests)
    && (late > 0 && max > 0 ==> if requests <= max then admitted == requests else admitted > max)
    && (max == 0 ==> admitted == 0)
    && prompt <= admitted && prompt <= max
  }

  function CounterOf(r: Redis, key: string): Option<Counter> { if key in r then Some(r[key]) else None }

  predicate CounterOk(u: Setup, s: State, w: int)
    requires u.config.Valid()
  {
    var c := u.config;
    && Tallied(CounterOf(s.redis, u.Key(w)), (w + 1) * c.windowMs, RequestsIn(s.log, w),
               AdmittedIn(s.log, c.maxRequests, w), LateIn(s.log, w), PromptIn(c, s.log, w), c.maxRequests)
    && (LateIn(s.log, w) > 0 ==> (w + 1) * c.windowMs <= s.now)
  }

  ghost predicate CountersOk(u: Setup, s: State)
    requires u.config.Valid()
  {
    forall w :: CounterOk(u, s, w)
  }

  /** No request is ahead of the clock. */
  ghost predicate CallsOk(u: Setup, s: State)
    requires u.config.Valid()
  {
    forall c :: c in s.calls && !s.calls[c].Idle? ==> s.calls[c].window * u.config.windowMs <= s.now
  }

  lemma LogGrows(c: RateLimitConfig, log: seq<Seen>, seen: Seen, w: int)
    requires c.Valid()
    ensures var grown, mine := log + [seen], seen.window == w;
            && RequestsIn(grown, w) == RequestsIn(log, w) + (if mine then 1 else 0)
            && AdmittedIn(grown, c.maxRequests, w) ==
                 AdmittedIn(log, c.maxRequests, w) + (if mine && seen.count <= c.maxRequests then 1 else 0)
            && LateIn(grown, w) == LateIn(log, w) + (if mine && seen.late then 1 else 0)
            && PromptIn(c, grown, w) == PromptIn(c, log, w)
                 + (if mine && c.WindowOf(seen.at) == w && seen.count <= c.maxRequests then 1 else 0)
  {
    assert (log + [seen])[..|log|] == log;
  }

  /** One more request for a window, in its time or after. */
  lemma TallyOneMore(stored: Option<Counter>, now: int, end: int, requests: nat, admitted: nat, late: nat,
      prompt: nat, max: nat)
    requires Tallied(stored, end, requests, admitted, late, prompt, max) && (late > 0 ==> end <= now)
    ensures var gone := stored.Some? && stored.value.expiresAt.Some? && stored.value.expiresAt.value <= now;
            var next := if stored.None? || gone then Counter(1, None)
                else stored.value.(value := stored.value.value + 1);
            var admits := next.value <= max;
            && (gone ==> end <= now)
            && Tallied(Some(next), end, requests + 1,
                       admitted + (if admits then 1 else 0), late + (if gone then 1 else 0),
                       prompt + (if admits && now < end then 1 else 0), max)
  {
  }

  lemma CountKeepsCounter(u: Setup, s: State, v: int, w: int)
    requires u.config.Valid() && CounterOk(u, s, w) && v * u.config.windowMs <= s.now
    ensures CounterOk(u, Incremented(u, s, v), w)
  {
    var c, s' := u.config, Incremented(u, s, v);
    KeyIdentifiesWindow(u.identifier, u.endpoint, w, v);
    LogGrows(c, s.log, s'.log[|s.log|], w);
    if v == w {
      PromptMeansBeforeEnd(c, s.now, w);
      TallyOneMore(CounterOf(s.redis, u.Key(w)), s.now, (w + 1) * c.windowMs, RequestsIn(s.log, w),
                   AdmittedIn(s.log, c.maxRequests, w), LateIn(s.log, w), PromptIn(c, s.log, w), c.maxRequests);
    }
  }

  lemma PromptMeansBeforeEnd(c: RateLimitConfig, now: int, w: int)
    requires c.Valid() && w * c.windowMs <= now
    ensures c.WindowOf(now) == w <==> now < (w + 1) * c.windowMs
  {
    WindowBounds(c, now);
    if c.WindowOf(now) < w { Products(c.windowMs, c.WindowOf(now) + 1, w); }
    if c.WindowOf(now) > w { Products(c.windowMs, w + 1, c.WindowOf(now)); }
  }

  lemma ExpiryKeepsCounter(u: Setup, s: State, v: int, w: int)
    requires u.config.Valid() && CounterOk(u, s, w) && v * u.config.windowMs <= s.now
    ensures CounterOk(u, s.(redis := Expire(s.redis, u.Key(v), s.now, CeilThousandths(u.config.windowMs))), w)
  {
    KeyIdentifiesWindow(u.identifier, u.endpoint, w, v);
    OwnLife(u.config, v, s.now);
  }

  /** A time to live set after a window began reaches at least its end. */
  lemma OwnLife(c: RateLimitConfig, w: int, now: int)
    requires c.Valid() && w * c.windowMs <= now
    ensures now + 1000 * CeilThousandths(c.windowMs) >= (w + 1) * c.windowMs
  {
    assert (w + 1) * c.windowMs == w * c.windowMs + c.windowMs;
  }

  lemma StepKeepsCounters(u: Setup, s: State, e: Event)
    requires u.config.Valid() && CountersOk(u, s) && CallsOk(u, s) && Step(u, s, e).Some?
    ensures CountersOk(u, Step(u, s, e).value)
  {
    forall w ensures CounterOk(u, Step(u, s, e).value, w) {
      assert CounterOk(u, s, w);
      match e
      case Count(c) => CountKeepsCounter(u, s, s.PcOf(c).window, w);
      case SetExpiry(c) => ExpiryKeepsCounter(u, s, s.PcOf(c).window, w);
      case _ =>
    }
  }

  lemma StepKeepsCalls(u: Setup, s: State, e: Event)
    requires u.config.Valid() && CallsOk(u, s) && Step(u, s, e).Some?
    ensures CallsOk(u, Step(u, s, e).value)
  {
    WindowBounds(u.config, s.now);
  }

  lemma {:induction false} ReplayKeepsCounters(u: Setup, s: State, trace: seq<Event>)
    requires u.config.Valid() && CountersOk(u, s) && CallsOk(u, s) && Replay(u, s, trace).Some?
    ensures CountersOk(u, Replay(u, s, trace).value) && CallsOk(u, Replay(u, s, trace).value)
    decreases |trace|
  {
    if trace != [] {
      StepKeepsCounters(u, s, trace[0]);
      StepKeepsCalls(u, s, trace[0]);
      ReplayKeepsCounters(u, Step(u, s, trace[0]).value, trace[1..]);
    }
  }

  lemma ReachableCounters(u: Setup, s: State)
    requires Reachable(u, s)
    ensures CountersOk(u, s) && CallsOk(u, s)
  {
    var now: int, trace: seq<Event> :| Replay(u, Start(now), trace) == Some(s);
    ReplayKeepsCounters(u, Start(now), trace);
  }

  // ---- Theorems

  /** A counter is never reset inside its own window: while the window lasts it reads exactly the number of
      its requests that have landed, however requests interleave and even if the one that should have set the
      expiry died. */
  lemma NeverResetInsideWindow(u: Setup, s: State)
    requires Reachable(u, s)
    ensures Get(s.redis, u.Key(u.config.WindowOf(s.now)), s.now) == RequestsIn(s.log, u.config.WindowOf(s.now))
  {
    ReachableCounters(u, s);
    assert CounterOk(u, s, u.config.WindowOf(s.now));
    WindowBounds(u.config, s.now);
  }

  /** A window admits exactly its requests up to the maximum if and only if none of them landed after its
      counter had expired, or they all fit; otherwise it admits more than the maximum. A request that lands
      while its window lasts is never late. */
  lemma WindowAdmitsExactlyWhen(u: Setup, s: State, w: int)
    requires Reachable(u, s)
    ensures var max := u.config.maxRequests;
            var prompt := LateIn(s.log, w) == 0;
            && (AdmittedIn(s.log, max, w) == Min(RequestsIn(s.log, w), max) <==>
                  prompt || RequestsIn(s.log, w) <= max || max == 0)
            && (!prompt && RequestsIn(s.log, w) > max > 0 ==> AdmittedIn(s.log, max, w) > max)
            && (s.now < (w + 1) * u.config.windowMs ==> prompt)
  {
    ReachableCounters(u, s);
    assert CounterOk(u, s, w);
  }

  lemma {:induction false} TwoWindowsCover(c: RateLimitConfig, log: seq<Seen>, from: int)
    requires c.Valid()
    ensures AdmittedBetween(log, c.maxRequests, from, from + c.windowMs)
              <= PromptIn(c, log, c.WindowOf(from)) + PromptIn(c, log, c.WindowOf(from) + 1)
                 + StraysBetween(c, log, from, from + c.windowMs)
  {
    if log != [] {
      TwoWindowsCover(c, log[..|log| - 1], from);
      var at := log[|log| - 1].at;
      if from <= at < from + c.windowMs { OneOfTwo(c, from, at); }
    }
  }

  lemma OneOfTwo(c: RateLimitConfig, from: int, at: int)
    requires c.Valid() && from <= at < from + c.windowMs
    ensures c.WindowOf(at) == c.WindowOf(from) || c.WindowOf(at) == c.WindowOf(from) + 1
  {
    WindowAscends(c, from, at);
    WindowBounds(c, from);
    WindowBounds(c, at);
    assert (c.WindowOf(from) + 2) * c.windowMs == (c.WindowOf(from) + 1) * c.windowMs + c.windowMs;
    if c.WindowOf(at) >= c.WindowOf(from) + 2 { Products(c.windowMs, c.WindowOf(from) + 2, c.WindowOf(at)); }
  }

  /** Any stretch of one window's length, wherever it starts, admits at most twice the maximum plus the
      requests that were in flight when their window ended and landed in the stretch; so at most twice the
      maximum if there are none. */
  lemma AtMostTwiceTheMaximum(u: Setup, s: State, from: int)
    requires Reachable(u, s)
    ensures AdmittedBetween(s.log, u.config.maxRequests, from, from + u.config.windowMs)
              <= 2 * u.config.maxRequests + StraysBetween(u.config, s.log, from, from + u.config.windowMs)
  {
    ReachableCounters(u, s);
    assert CounterOk(u, s, u.config.WindowOf(from)) && CounterOk(u, s, u.config.WindowOf(from) + 1);
    TwoWindowsCover(u.config, s.log, from);
  }

  // ---- Runs that reach and exceed the bounds

  lemma LastAndFirstInstant(c: RateLimitConfig)
    requires c.Valid()
    ensures c.WindowOf(c.windowMs - 1) == 0 && c.WindowOf(c.windowMs) == 1 && c.WindowOf(0) == 0
  {
    MultipleIsStart(c, 1);
    MultipleIsStart(c, 0);
    PromptMeansBeforeEnd(c, c.windowMs - 1, 0);
  }

  lemma {:induction false} ReplayAppend(u: Setup, s: State, a: seq<Event>, b: seq<Event>)
    requires u.config.Valid() && Replay(u, s, a).Some?
    ensures Replay(u, s, a + b) == Replay(u, Replay(u, s, a).value, b)
    decreases |a|
  {
    if a == [] {
      assert a + b == b;
    } else {
      assert (a + b)[1..] == a[1..] + b;
      ReplayAppend(u, Step(u, s, a[0]).value, a[1..], b);
    }
  }

  lemma ThenOne(u: Setup, s: State, trace: seq<Event>, mid: State, e: Event, end: State)
    requires u.config.Valid() && Replay(u, s, trace) == Some(mid) && Step(u, mid, e) == Some(end)
    ensures Replay(u, s, trace + [e]) == Some(end)
  {
    ReplayAppend(u, s, trace, [e]);
    assert [e][1..] == [] && Replay(u, end, []) == Some(end);
  }

  /** n admitted requests of one window at one instant. */
  function LetIn(w: int, at: int, n: nat): (log: seq<Seen>)
    ensures forall i :: 0 <= i < |log| ==> log[i].window == w && log[i].at == at
  {
    if n == 0 then [] else LetIn(w, at, n - 1) + [Seen(w, at, n, false)]
  }

  lemma {:induction false} AdmittedMore(log: seq<Seen>, max: nat, w: int, at: int, n: nat, from: int, to: int)
    requires from <= at < to && n <= max
    ensures AdmittedBetween(log + LetIn(w, at, n), max, from, to) == AdmittedBetween(log, max, from, to) + n
  {
    var more := log + LetIn(w, at, n);
    if n == 0 {
      assert more == log;
    } else {
      AdmittedMore(log, max, w, at, n - 1, from, to);
      assert more[..|more| - 1] == log + LetIn(w, at, n - 1);
    }
  }

  /** Caller 0 makes n requests at one instant, the first of their window; each is through before the next. */
  lemma {:induction false} Burst(u: Setup, s: State, n: nat) returns (trace: seq<Event>, end: State)
    requires u.config.Valid() && s.PcOf(0).Idle? && u.Key(u.config.WindowOf(s.now)) !in s.redis
    ensures Replay(u, s, trace) == Some(end)
    ensures end.now == s.now && end.log == s.log + LetIn(u.config.WindowOf(s.now), s.now, n)
    ensures end.PcOf(0).Idle? && forall c :: c != 0 ==> end.PcOf(c) == s.PcOf(c)
    ensures var key := u.Key(u.config.WindowOf(s.now));
            && (forall k :: k != key ==> (k in end.redis <==> k in s.redis))
            && (if n == 0 then key !in end.redis else
                  key in end.redis
                  && end.redis[key] == Counter(n, Some(s.now + 1000 * CeilThousandths(u.config.windowMs))))
  {
    if n == 0 {
      trace, end := [], s;
    } else {
      var fewer, before := Burst(u, s, n - 1);
      trace, end := OneRequest(u, s, fewer, before, n);
      assert s.log + LetIn(u.config.WindowOf(s.now), s.now, n)
          == s.log + LetIn(u.config.WindowOf(s.now), s.now, n - 1) + [Seen(u.config.WindowOf(s.now), s.now, n, false)];
    }
  }

  lemma OneRequest(u: Setup, s: State, trace: seq<Event>, mid: State, n: nat) returns (longer: seq<Event>, end: State)
    requires u.config.Valid() && Replay(u, s, trace) == Some(mid) && mid.PcOf(0).Idle? && n >= 1
    requires var key := u.Key(u.config.WindowOf(mid.now));
             if n == 1 then key !in mid.redis else
               key in mid.redis
               && mid.redis[key] == Counter(n - 1, Some(mid.now + 1000 * CeilThousandths(u.config.windowMs)))
    ensures Replay(u, s, longer) == Some(end)
    ensures end.now == mid.now && end.log == mid.log + [Seen(u.config.WindowOf(mid.now), mid.now, n, false)]
    ensures end.PcOf(0).Idle? && forall c :: c != 0 ==> end.PcOf(c) == mid.PcOf(c)
    ensures var key := u.Key(u.config.WindowOf(mid.now));
            && (forall k :: k != key ==> (k in end.redis <==> k in mid.redis))
            && key in end.redis
            && end.redis[key] == Counter(n, Some(mid.now + 1000 * CeilThousandths(u.config.windowMs)))
  {
    var s1 := Step(u, mid, Choose(0)).value;
    ThenOne(u, s, trace, mid, Choose(0), s1);
    var s2 := Step(u, s1, Count(0)).value;
    ThenOne(u, s, trace + [Choose(0)], s1, Count(0), s2);
    longer, end := trace + [Choose(0)] + [Count(0)], s2;
    if n == 1 {
      end := Step(u, s2, SetExpiry(0)).value;
      ThenOne(u, s, longer, s2, SetExpiry(0), end);
      longer := longer + [SetExpiry(0)];
    }
  }

  /** Twice the maximum is reached with every request prompt, whatever the maximum: a burst at the end of one
      window and another at the start of the next are both admitted in full. */
  lemma TwiceIsReached(u: Setup) returns (trace: seq<Event>)
    requires u.config.Valid() && u.config.windowMs > 1
    ensures var w, end := u.config.windowMs, Replay(u, Start(u.config.windowMs - 1), trace);
            && end.Some?
            && AdmittedBetween(end.value.log, u.config.maxRequests, w - 1, w - 1 + w) == 2 * u.config.maxRequests
            && StraysBetween(u.config, end.value.log, w - 1, w - 1 + w) == 0
  {
    var w, m := u.config.windowMs, u.config.maxRequests;
    LastAndFirstInstant(u.config);
    KeyIdentifiesWindow(u.identifier, u.endpoint, 0, 1);
    var first, s1 := Burst(u, Start(w - 1), m);
    ThenOne(u, Start(w - 1), first, s1, Tick(w), s1.(now := w));
    var second, s3 := Burst(u, s1.(now := w), m);
    trace := first + [Tick(w)] + second;
    ReplayAppend(u, Start(w - 1), first + [Tick(w)], second);
    AdmittedMore([], m, 0, w - 1, m, w - 1, w - 1 + w);
    AdmittedMore([] + LetIn(0, w - 1, m), m, 1, w, m, w - 1, w - 1 + w);
    NoStrays(u.config, s3.log, w - 1, w - 1 + w);
  }

  lemma {:induction false} NoStrays(c: RateLimitConfig, log: seq<Seen>, from: int, to: int)
    requires c.Valid() && forall i :: 0 <= i < |log| ==> c.WindowOf(log[i].at) == log[i].window
    ensures StraysBetween(c, log, from, to) == 0
  {
    if log != [] { NoStrays(c, log[..|log| - 1], from, to); }
  }

  lemma {:induction false} BurstTally(w: int, at: int, n: nat, max: nat)
    requires n <= max
    ensures RequestsIn(LetIn(w, at, n), w) == AdmittedIn(LetIn(w, at, n), max, w) == n
  {
    if n > 0 {
      BurstTally(w, at, n - 1, max);
      assert LetIn(w, at, n)[..|LetIn(w, at, n)| - 1] == LetIn(w, at, n - 1);
    }
  }

  /** A request that chose its key in a window and lands after the key has expired starts the count anew: the
      window admits one more than its maximum. */
  lemma LateRequestIsAdmitted(u: Setup) returns (trace: seq<Event>)
    requires u.config.Valid() && u.config.maxRequests > 0
    ensures var end := Replay(u, Start(0), trace);
            && end.Some? && RequestsIn(end.value.log, 0) == u.config.maxRequests + 1
            && AdmittedIn(end.value.log, u.config.maxRequests, 0) == u.config.maxRequests + 1
  {
    var m, gone := u.config.maxRequests, 1000 * CeilThousandths(u.config.windowMs);
    LastAndFirstInstant(u.config);
    var s1 := Step(u, Start(0), Choose(1)).value;
    var start := [Choose(1)];
    ThenOne(u, Start(0), [], Start(0), Choose(1), s1);
    assert [] + [Choose(1)] == start;
    var burst, s2 := Burst(u, s1, m);
    ReplayAppend(u, Start(0), start, burst);
    var s3 := Step(u, s2, Tick(gone)).value;
    ThenOne(u, Start(0), start + burst, s2, Tick(gone), s3);
    assert s1.PcOf(1) == Chosen(0) && s2.PcOf(1) == s1.PcOf(1) && s3.PcOf(1) == s2.PcOf(1);
    var s4 := Step(u, s3, Count(1)).value;
    ThenOne(u, Start(0), start + burst + [Tick(gone)], s3, Count(1), s4);
    trace := start + burst + [Tick(gone)] + [Count(1)];
    BurstTally(0, 0, m, m);
    assert [] + LetIn(0, 0, m) == LetIn(0, 0, m);
    LogGrows(u.config, s3.log, Seen(0, gone, 1, true), 0);
  }

  /** Requests 1..k have chosen the keys of windows 0..k-1; those from `from` on are still under way. */
  predicate UnderWay(u: Setup, s: State, from: nat, k: nat) {
    forall i :: from <= i < k ==> s.PcOf(i + 1) == Chosen(i) && u.Key(i) !in s.redis
  }

  lemma {:induction false} ChooseMany(u: Setup, k: nat) returns (trace: seq<Event>, end: State)
    requires u.config.Valid()
    ensures Replay(u, Start(0), trace) == Some(end) && end.now == k * u.config.windowMs && end.log == []
    ensures end.redis == map[] && UnderWay(u, end, 0, k) && end.PcOf(0).Idle? && forall i :: i > k ==> end.PcOf(i).Idle?
  {
    if k == 0 {
      trace, end := [], Start(0);
    } else {
      var fewer, before := ChooseMany(u, k - 1);
      MultipleIsStart(u.config, k - 1);
      Products(u.config.windowMs, k - 1, k);
      var chosen := Step(u, before, Choose(k)).value;
      ThenOne(u, Start(0), fewer, before, Choose(k), chosen);
      end := chosen.(now := k * u.config.windowMs);
      assert forall i :: i != k ==> end.PcOf(i) == before.PcOf(i);
      ThenOne(u, Start(0), fewer + [Choose(k)], chosen, Tick(k * u.config.windowMs), end);
      trace := fewer + [Choose(k)] + [Tick(k * u.config.windowMs)];
    }
  }

  lemma CountStray(u: Setup, s: State, j: nat, k: nat, from: int) returns (next: State)
    requires u.config.Valid() && u.config.maxRequests > 0 && j < k <= u.config.WindowOf(s.now) && UnderWay(u, s, j, k)
    requires from <= s.now < from + u.config.windowMs
    ensures Step(u, s, Count(j + 1)) == Some(next) && next.now == s.now && UnderWay(u, next, j + 1, k)
    ensures AdmittedBetween(next.log, u.config.maxRequests, from, from + u.config.windowMs)
              == AdmittedBetween(s.log, u.config.maxRequests, from, from + u.config.windowMs) + 1
    ensures StraysBetween(u.config, next.log, from, from + u.config.windowMs)
              == StraysBetween(u.config, s.log, from, from + u.config.windowMs) + 1
  {
    assert u.Key(j) !in s.redis && s.PcOf(j + 1) == Chosen(j);
    next := Step(u, s, Count(j + 1)).value;
    assert next.log == s.log + [Seen(j, s.now, 1, false)] && next.log[..|s.log|] == s.log;
    forall i | j + 1 <= i < k ensures next.PcOf(i + 1) == Chosen(i) && u.Key(i) !in next.redis {
      KeyIdentifiesWindow(u.identifier, u.endpoint, i, j);
      assert u.Key(i) !in s.redis && s.PcOf(i + 1) == Chosen(i);
    }
  }

  /** The requests under way land together, each the first of its window, and all are admitted as strays. */
  lemma {:induction false} CountMany(u: Setup, s: State, j: nat, k: nat, from: int)
    returns (trace: seq<Event>, end: State)
    requires u.config.Valid() && u.config.maxRequests > 0 && j <= k <= u.config.WindowOf(s.now) && UnderWay(u, s, j, k)
    requires from <= s.now < from + u.config.windowMs
    ensures Replay(u, s, trace) == Some(end) && end.now == s.now
    ensures AdmittedBetween(end.log, u.config.maxRequests, from, from + u.config.windowMs)
              == AdmittedBetween(s.log, u.config.maxRequests, from, from + u.config.windowMs) + (k - j)
    ensures StraysBetween(u.config, end.log, from, from + u.config.windowMs)
              == StraysBetween(u.config, s.log, from, from + u.config.windowMs) + (k - j)
    decreases k - j
  {
    if j == k {
      trace, end := [], s;
    } else {
      var next := CountStray(u, s, j, k, from);
      var rest;
      rest, end := CountMany(u, next, j + 1, k, from);
      trace := [Count(j + 1)] + rest;
      assert trace[1..] == rest;
    }
  }

  lemma PromptAdds(c: RateLimitConfig, log: seq<Seen>, w: int, at: int, n: nat, from: int, to: int)
    requires c.Valid() && c.WindowOf(at) == w && forall i :: 0 <= i < |log| ==> c.WindowOf(log[i].at) == log[i].window
    ensures StraysBetween(c, log + LetIn(w, at, n), from, to) == 0
  {
    NoStrays(c, log + LetIn(w, at, n), from, to);
  }

  lemma NextWindowOf(c: RateLimitConfig, w: int)
    requires c.Valid() && c.windowMs > 1
    ensures c.WindowOf((w + 1) * c.windowMs - 1) == w && c.WindowOf((w + 1) * c.windowMs) == w + 1
  {
    MultipleIsStart(c, w + 1);
    assert (w + 1) * c.windowMs == w * c.windowMs + c.windowMs;
    PromptMeansBeforeEnd(c, (w + 1) * c.windowMs - 1, w);
  }

  /** A burst by caller 0 leaves the requests that are under way in other windows as they are. */
  lemma BurstAside(u: Setup, s: State, k: nat, n: nat) returns (trace: seq<Event>, end: State)
    requires u.config.Valid() && s.PcOf(0).Idle? && u.Key(u.config.WindowOf(s.now)) !in s.redis
    requires UnderWay(u, s, 0, k) && k <= u.config.WindowOf(s.now)
    ensures Replay(u, s, trace) == Some(end) && end.now == s.now && end.PcOf(0).Idle?
    ensures end.log == s.log + LetIn(u.config.WindowOf(s.now), s.now, n) && UnderWay(u, end, 0, k)
    ensures forall i :: i != u.config.WindowOf(s.now) && u.Key(i) !in s.redis ==> u.Key(i) !in end.redis
  {
    trace, end := Burst(u, s, n);
    forall i | i != u.config.WindowOf(s.now) && u.Key(i) !in s.redis ensures u.Key(i) !in end.redis {
      KeyIdentifiesWindow(u.identifier, u.endpoint, i, u.config.WindowOf(s.now));
    }
    forall i | 0 <= i < k ensures end.PcOf(i + 1) == Chosen(i) && u.Key(i) !in end.redis {
      assert s.PcOf(i + 1) == Chosen(i) && u.Key(i) !in s.redis;
    }
  }

  /** The clock moves on, and caller 0 makes a burst at the new instant. */
  lemma TickAndBurst(u: Setup, s0: State, trace: seq<Event>, s: State, k: nat, to: int, n: nat)
    returns (longer: seq<Event>, end: State)
    requires u.config.Valid() && Replay(u, s0, trace) == Some(s) && s.now <= to && s.PcOf(0).Idle?
    requires u.Key(u.config.WindowOf(to)) !in s.redis && UnderWay(u, s, 0, k) && k <= u.config.WindowOf(to)
    ensures Replay(u, s0, longer) == Some(end) && end.now == to && end.PcOf(0).Idle? && UnderWay(u, end, 0, k)
    ensures end.log == s.log + LetIn(u.config.WindowOf(to), to, n)
    ensures forall i :: i != u.config.WindowOf(to) && u.Key(i) !in s.redis ==> u.Key(i) !in end.redis
  {
    var later := s.(now := to);
    ThenOne(u, s0, trace, s, Tick(to), later);
    assert forall i :: later.PcOf(i) == s.PcOf(i);
    var burst;
    burst, end := BurstAside(u, later, k, n);
    ReplayAppend(u, s0, trace + [Tick(to)], burst);
    longer := trace + [Tick(to)] + burst;
  }

  /** The bound of twice the maximum and the strays is met for every number of strays: k requests are in
      flight from k windows, the maximum is admitted at the end of the next window and again at the start of
      the one after, and then the k land. */
  lemma BoundIsMet(u: Setup, k: nat) returns (trace: seq<Event>, end: State, from: int)
    requires u.config.Valid() && u.config.windowMs > 1 && u.config.maxRequests > 0
    ensures Replay(u, Start(0), trace) == Some(end)
    ensures StraysBetween(u.config, end.log, from, from + u.config.windowMs) == k
    ensures AdmittedBetween(end.log, u.config.maxRequests, from, from + u.config.windowMs)
              == 2 * u.config.maxRequests + k
  {
    var w, m := u.config.windowMs, u.config.maxRequests;
    var next := (k + 1) * w;
    from := next - 1;
    NextWindowOf(u.config, k);
    assert next == k * w + w;
    var t1, s1 := ChooseMany(u, k);
    var t2, s2 := TickAndBurst(u, Start(0), t1, s1, k, from, m);
    assert u.Key(k + 1) !in s1.redis;
    var t3, s3 := TickAndBurst(u, Start(0), t2, s2, k, next, m);
    TwoBursts(u.config, k, from, next);
    var t4;
    t4, end := CountMany(u, s3, 0, k, from);
    ReplayAppend(u, Start(0), t3, t4);
    trace := t3 + t4;
  }

  lemma TwoBursts(c: RateLimitConfig, k: nat, from: int, next: int)
    requires c.Valid() && c.WindowOf(from) == k && c.WindowOf(next) == k + 1 && from < next < from + c.windowMs
    ensures var log, m := [] + LetIn(k, from, c.maxRequests) + LetIn(k + 1, next, c.maxRequests), c.maxRequests;
            && AdmittedBetween(log, m, from, from + c.windowMs) == 2 * m
            && StraysBetween(c, log, from, from + c.windowMs) == 0
  {
    var m := c.maxRequests;
    AdmittedMore([], m, k, from, m, from, from + c.windowMs);
    AdmittedMore([] + LetIn(k, from, m), m, k + 1, next, m, from, from + c.windowMs);
    PromptAdds(c, [] + LetIn(k, from, m), k + 1, next, m, from, from + c.windowMs);
  }

  // ---- The limiter as it runs

  class CounterStore {
    var redis: Redis

    constructor ()
      ensures redis == map[]
    {
      redis := map[];
    }
  }

  /** One request handler. Between its commands the others of the same key do whatever they do, and each of
      its own is a step of the machine. */
  class RateLimiter {
    const u: Setup
    const me: nat
    const store: CounterStore
    /** What everybody else does at the i-th interruption; arbitrary. */
    const others: nat -> seq<Event>
    var interruptions: nat
    var clock: int
    var world: State
    ghost var trace: seq<Event>
    ghost const born: int

    constructor (u: Setup, me: nat, store: CounterStore, clock: int, others: nat -> seq<Event>)
      requires u.config.Valid() && store.redis == map[]
      ensures Valid() && this.u == u && this.me == me && this.store == store && trace == [] && world.PcOf(me).Idle?
    {
      this.u, this.me, this.store, this.others := u, me, store, others;
      this.interruptions, this.clock := 0, clock;
      this.world, this.trace, this.born := Start(clock), [], clock;
    }

    ghost predicate Valid()
      reads this, store
    {
      && u.config.Valid() && Replay(u, Start(born), trace) == Some(world)
      && clock == world.now && store.redis == world.redis
    }

    predicate Foreign(e: Event) { e.Tick? || e.c != me }

    method Note(e: Event)
      requires u.config.Valid() && Replay(u, Start(born), trace) == Some(world) && Step(u, world, e).Some?
      modifies this`world, this`trace
      ensures Some(world) == Step(u, old(world), e)
      ensures trace == old(trace) + [e] && Replay(u, Start(born), trace) == Some(world)
    {
      ThenOne(u, Start(born), trace, world, e, Step(u, world, e).value);
      world, trace := Step(u, world, e).value, trace + [e];
    }

    /** What others leave alone: this handler's place and what is in the log. */
    ghost predicate Kept(before: State, after: State) {
      after.PcOf(me) == before.PcOf(me) && before.now <= after.now && before.log <= after.log
    }

    /** Any number of steps of others. */
    method Interrupted()
      requires Valid()
      modifies this, store
      ensures Valid() && old(trace) <= trace && Kept(old(world), world)
    {
      var events := others(interruptions);
      interruptions := interruptions + 1;
      for i := 0 to |events|
        invariant Valid() && old(trace) <= trace && Kept(old(world), world)
      {
        if Foreign(events[i]) && Step(u, world, events[i]).Some? {
          Note(events[i]);
          clock, store.redis := world.now, world.redis;
        }
      }
    }

    /** One request. Whatever the others do meanwhile, it lands exactly once, at `at` in the log, for the window
        it started in; the answer goes by the count it got then, and says the least number of whole seconds
        after which the window current at the end is over. The first to be counted sets the expiry. */
    method CheckRateLimit() returns (res: RateLimitResult, ghost at: nat)
      requires Valid() && world.PcOf(me).Idle?
      modifies this, store
      ensures Valid() && old(trace) <= trace && world.PcOf(me).Idle? && old(world.log) <= world.log
      ensures |old(world.log)| <= at < |world.log| && old(clock) <= world.log[at].at <= clock
      ensures world.log[at].window * u.config.windowMs <= world.log[at].at
          && u.config.WindowOf(old(clock)) <= world.log[at].window
      ensures res.allowed <==> world.log[at].count <= u.config.maxRequests
      ensures res.remaining == (if res.allowed then u.config.maxRequests - world.log[at].count else 0)
      ensures res.limit == u.config.maxRequests
      ensures world.log[at].count == 1 ==> SetExpiry(me) in trace[|old(trace)|..]
      ensures u.config.WindowOf(clock + 1000 * (res.resetInSeconds - 1)) == u.config.WindowOf(clock)
      ensures u.config.WindowOf(clock) < u.config.WindowOf(clock + 1000 * res.resetInSeconds)
    {
      var count;
      count, at := CountIn();
      var allowed := count <= u.config.maxRequests;
      var remaining := if u.config.maxRequests - count < 0 then 0 else u.config.maxRequests - count;
      var windowEnd := (clock / u.config.windowMs + 1) * u.config.windowMs;
      var resetInSeconds := (windowEnd - clock + 999) / 1000;
      SecondsToEnd(u.config, clock, windowEnd);
      res := RateLimitResult(allowed, u.config.maxRequests, remaining, resetInSeconds);
    }

    /** Choose the key, count, and set the expiry if this was the first. */
    method CountIn() returns (count: nat, ghost at: nat)
      requires Valid() && world.PcOf(me).Idle?
      modifies this, store
      ensures Valid() && old(trace) <= trace && world.PcOf(me).Idle? && old(world.log) <= world.log
      ensures |old(world.log)| <= at < |world.log| && old(clock) <= world.log[at].at <= clock
      ensures world.log[at].window * u.config.windowMs <= world.log[at].at
          && u.config.WindowOf(old(clock)) <= world.log[at].window
      ensures world.log[at].count == count && (count == 1 ==> SetExpiry(me) in trace[|old(trace)|..])
    {
      Interrupted();
      WindowBounds(u.config, clock);
      WindowAscends(u.config, old(clock), clock);
      var window := clock / u.config.windowMs;
      Note(Choose(me));
      count, at := Increment(window);
      if count == 1 {
        SetTimeToLive(window);
      }
      Interrupted();
    }

    /** The INCR, some time after the key was chosen. */
    method Increment(window: int) returns (count: nat, ghost at: nat)
      requires Valid() && world.PcOf(me) == Chosen(window)
      modifies this, store
      ensures Valid() && old(trace) <= trace && old(world.log) <= world.log && old(clock) <= clock
      ensures |old(world.log)| <= at < |world.log| && world.log[at].window == window && world.log[at].count == count
      ensures world.log[at].at == clock
      ensures world.PcOf(me) == if count == 1 then First(window) else Idle
    {
      Interrupted();
      var key := BuildKey(u.identifier, u.endpoint, window);
      store.redis := IncrBy(store.redis, key, clock, 1);
      at := |world.log|;
      Note(Count(me));
      PositiveCount();
      count := store.redis[key].value;
    }

    /** Counts in the log are positive. */
    lemma PositiveCount()
      requires Valid()
      ensures forall w :: u.Key(w) in world.redis ==> world.redis[u.Key(w)].value >= 1
    {
      ReplayKeepsCounters(u, Start(born), trace);
      forall w | u.Key(w) in world.redis ensures world.redis[u.Key(w)].value >= 1 {
        assert CounterOk(u, world, w);
      }
    }

    method SetTimeToLive(window: int)
      requires Valid() && world.PcOf(me) == First(window)
      modifies this, store
      ensures Valid() && old(trace) <= trace && old(world.log) <= world.log && old(clock) <= clock
          && world.PcOf(me).Idle? && SetExpiry(me) in trace[|old(trace)|..]
      ensures var key := u.Key(window);
              Live(world.redis, key, clock) ==>
                && world.redis[key].expiresAt.Some?
                && clock + u.config.windowMs <= world.redis[key].expiresAt.value < clock + u.config.windowMs + 1000
    {
      Interrupted();
      var key := BuildKey(u.identifier, u.endpoint, window);
      store.redis := Expire(store.redis, key, clock, (u.config.windowMs + 999) / 1000);
      Note(SetExpiry(me));
      assert trace[|trace| - 1] == SetExpiry(me);
    }
  }

  lemma SecondsToEnd(c: RateLimitConfig, now: int, windowEnd: int)
    requires c.Valid() && windowEnd == (c.WindowOf(now) + 1) * c.windowMs
    ensures var seconds := (windowEnd - now + 999) / 1000;
            c.WindowOf(now + 1000 * (seconds - 1)) == c.WindowOf(now) < c.WindowOf(now + 1000 * seconds)
  {
    var seconds := (windowEnd - now + 999) / 1000;
    WindowBounds(c, now);
    MultipleIsStart(c, c.WindowOf(now) + 1);
    WindowAscends(c, windowEnd, now + 1000 * seconds);
    WindowAscends(c, now, now + 1000 * (seconds - 1));
    PromptMeansBeforeEnd(c, now + 1000 * (seconds - 1), c.WindowOf(now));
  }
}
