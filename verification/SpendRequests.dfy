/** One request over all its attempts: what lands on the ledger, what is seen of it, and what is recorded. */
module SpendRequests {
  import opened Common
  import opened Calendar
  import opened WeekKeys
  import opened RedisCounters
  import opened Attempts
  import opened SpendSpec
  import opened SpendTheorems

  /** What an attempt does to the state. */
  lemma AttemptSteps(u: Setup, s: State, i: nat, net: Network) returns (t: Tried)
    requires Step(u, s, Attempt(i, net)).Some?
    ensures i < |s.pending| && s.pending[i].phase.Queued? && Plausible(net)
    ensures t == Tried(s.pending[i].id, s.pending[i].amount, net)
    ensures var s' := Step(u, s, Attempt(i, net)).value;
            && s'.pending == AfterAttempt(s.pending, i, EndingOf(net), Today(s))
            && s'.tried == s.tried + [t] && s'.log == s.log && s'.nextId == s.nextId
  {
    t := Tried(s.pending[i].id, s.pending[i].amount, net);
  }

  /** What the other events but Record leave alone. */
  lemma QuietSteps(u: Setup, s: State, e: Event) returns (amount: nat)
    requires Step(u, s, e).Some? && !e.Attempt? && !e.Record?
    ensures var s' := Step(u, s, e).value;
            s'.tried == s.tried && s'.log == s.log && (Unmoved(s, s') || Joined(s, s', amount))
  {
    amount := if e.Read? && e.c in s.checks then s.checks[e.c].amount else 0;
  }

  predicate Unmoved(s: State, s': State) {
    s'.pending == s.pending && s'.nextId == s.nextId
  }

  /** One more request in the queue. */
  predicate Joined(s: State, s': State, amount: nat) {
    s'.pending == s.pending + [Job(s.nextId, amount, 1, Queued)] && s'.nextId == s.nextId + 1
  }

  // ---- Recorded against landed

  ghost predicate TriedOk(tried: seq<Tried>) {
    forall i :: 0 <= i < |tried| ==> Plausible(tried[i].net)
  }

  /** Recorded, about to be recorded, and unseen: that is all that landed. */
  ghost predicate Balanced(s: State) {
    TriedOk(s.tried) && Total(s.log) + WritingSum(s.pending) + BlindSum(s.tried) == LandedSum(s.tried)
  }

  lemma TriedGrows(tried: seq<Tried>, t: Tried)
    ensures LandedSum(tried + [t]) == LandedSum(tried) + if t.net.fate.Landed? then t.amount else 0
    ensures BlindSum(tried + [t]) == BlindSum(tried) + if Blind(t.net) then t.amount else 0
    ensures TriedOk(tried) && Plausible(t.net) ==> TriedOk(tried + [t])
  {
    assert (tried + [t])[..|tried|] == tried;
  }

  function Written(job: Job): nat { if job.phase.Writing? then job.amount else 0 }

  lemma {:induction false} WritingUpdate(pending: seq<Job>, i: nat, job: Job)
    requires i < |pending|
    ensures WritingSum(pending[i := job]) == WritingSum(pending) - Written(pending[i]) + Written(job)
  {
    var last := |pending| - 1;
    if i < last {
      WritingUpdate(pending[..last], i, job);
      assert pending[i := job][..last] == pending[..last][i := job];
    } else {
      assert pending[i := job][..last] == pending[..last];
    }
  }

  lemma {:induction false} WritingWithout(pending: seq<Job>, i: nat)
    requires i < |pending|
    ensures WritingSum(Without(pending, i)) == WritingSum(pending) - Written(pending[i])
  {
    var last := |pending| - 1;
    if i < last {
      var fewer := Without(pending[..last], i);
      WritingWithout(pending[..last], i);
      assert Without(pending, i) == fewer + [pending[last]];
      assert (fewer + [pending[last]])[..|fewer|] == fewer;
    } else {
      assert Without(pending, i) == pending[..last];
    }
  }

  lemma WritingAfter(pending: seq<Job>, i: nat, ending: Ending, day: int)
    requires i < |pending| && pending[i].phase.Queued?
    ensures WritingSum(AfterAttempt(pending, i, ending, day)) ==
              WritingSum(pending) + if ending == Done(true) then pending[i].amount else 0
  {
    WritingWithout(pending, i);
    WritingUpdate(pending, i, pending[i].(phase := Writing(day)));
    WritingUpdate(pending, i, pending[i].(attempt := pending[i].attempt + 1));
  }

  lemma AttemptBalanced(s: State, s': State, i: nat, t: Tried, ending: Ending, day: int)
    requires Balanced(s) && i < |s.pending| && s.pending[i].phase.Queued?
    requires Plausible(t.net) && ending == EndingOf(t.net)
    requires t.amount == s.pending[i].amount && s'.tried == s.tried + [t] && s'.log == s.log
    requires s'.pending == AfterAttempt(s.pending, i, ending, day)
    ensures Balanced(s')
  {
    RecordedExactlyWhen(t.net);
    TriedGrows(s.tried, t);
    WritingAfter(s.pending, i, ending, day);
  }

  lemma OneMoreQueued(pending: seq<Job>, job: Job)
    requires job.phase.Queued?
    ensures WritingSum(pending + [job]) == WritingSum(pending)
  {
    assert (pending + [job])[..|pending|] == pending;
  }

  lemma StepBalanced(u: Setup, s: State, e: Event)
    requires Balanced(s) && Step(u, s, e).Some?
    ensures Balanced(Step(u, s, e).value)
  {
    var s' := Step(u, s, e).value;
    if e.Attempt? {
      var t := AttemptSteps(u, s, e.i, e.net);
      AttemptBalanced(s, s', e.i, t, EndingOf(e.net), Today(s));
    } else if e.Record? {
      var entry := RecordSteps(u, s, e.i);
      SumsGrow(s.log, entry, 0);
      WritingWithout(s.pending, e.i);
    } else {
      var amount := QuietSteps(u, s, e);
      OneMoreQueued(s.pending, Job(s.nextId, amount, 1, Queued));
    }
  }

  lemma {:induction false} ReplayBalanced(u: Setup, s: State, trace: seq<Event>)
    requires Balanced(s) && Replay(u, s, trace).Some?
    ensures Balanced(Replay(u, s, trace).value)
    decreases |trace|
  {
    if trace != [] {
      StepBalanced(u, s, trace[0]);
      ReplayBalanced(u, Step(u, s, trace[0]).value, trace[1..]);
    }
  }

  lemma {:induction false} NothingBlind(tried: seq<Tried>)
    ensures BlindSum(tried) == 0 <==> forall i :: 0 <= i < |tried| && tried[i].amount > 0 ==> !Blind(tried[i].net)
  {
    if tried != [] {
      var last := |tried| - 1;
      NothingBlind(tried[..last]);
      assert forall i :: 0 <= i < last ==> tried[..last][i] == tried[i];
    }
  }

  lemma ReachableBalanced(u: Setup, s: State)
    requires Reachable(u, s)
    ensures Balanced(s)
  {
    var now: int, trace: seq<Event> :| Modern(DayOf(now)) && Replay(u, Start(now), trace) == Some(s);
    ReplayBalanced(u, Start(now), trace);
  }

  /** The counters against the ledger, over every run with its retries: with what is about to be written, the
      lifetime counter never shows more than what landed, falls short by exactly the attempts the worker did
      not see land, and shows all of it if and only if no attempt of a positive amount landed while sending
      threw, all twelve polls went by unanswered, or the first answer was an exception. */
  lemma RecordedIsLandedExactlyWhen(u: Setup, s: State)
    requires Reachable(u, s)
    ensures var shown := Get(s.redis, u.keys.lifetime, s.now) + WritingSum(s.pending);
            && shown + BlindSum(s.tried) == LandedSum(s.tried)
            && (shown == LandedSum(s.tried) <==>
                  forall i :: 0 <= i < |s.tried| && s.tried[i].amount > 0 ==> !Blind(s.tried[i].net))
  {
    CountersAgree(u, s);
    ReachableBalanced(u, s);
    NothingBlind(s.tried);
  }

  // ---- How often a request is tried, lands and is recorded

  /** Where a request in the queue stands with its history. */
  ghost predicate JobOk(s: State, job: Job) {
    && job.id < s.nextId && job.attempt <= ATTEMPTS && RecordTimes(s.log, job.id) == 0
    && (if job.phase.Queued? then SeenTimes(s.tried, job.id) == 0 && TriedTimes(s.tried, job.id) == job.attempt - 1
        else SeenTimes(s.tried, job.id) == 1 && TriedTimes(s.tried, job.id) <= ATTEMPTS)
  }

  /** Where any request stands. */
  ghost predicate HistoryOk(s: State, id: nat) {
    && RecordTimes(s.log, id) <= SeenTimes(s.tried, id) <= 1 && TriedTimes(s.tried, id) <= ATTEMPTS
    && (id >= s.nextId ==> TriedTimes(s.tried, id) == 0)
  }

  ghost predicate Distinct(pending: seq<Job>) {
    forall i, j :: 0 <= i < j < |pending| ==> pending[i].id != pending[j].id
  }

  ghost predicate JobsOk(s: State) {
    forall i :: 0 <= i < |s.pending| ==> JobOk(s, s.pending[i])
  }

  ghost predicate HistoriesOk(s: State) {
    forall id :: HistoryOk(s, id)
  }

  ghost predicate IdsOk(s: State) {
    TriedOk(s.tried) && Distinct(s.pending) && JobsOk(s) && HistoriesOk(s)
  }

  lemma TimesGrow(tried: seq<Tried>, t: Tried, id: nat)
    ensures TriedTimes(tried + [t], id) == TriedTimes(tried, id) + if t.id == id then 1 else 0
    ensures SeenTimes(tried + [t], id)
              == SeenTimes(tried, id) + if t.id == id && EndingOf(t.net) == Done(true) then 1 else 0
  {
    assert (tried + [t])[..|tried|] == tried;
  }

  lemma RecordTimesGrow(log: seq<Entry>, e: Entry, id: nat)
    ensures RecordTimes(log + [e], id) == RecordTimes(log, id) + if e.id == id then 1 else 0
  {
    assert (log + [e])[..|log|] == log;
  }

  lemma {:induction false} SeenIsTried(tried: seq<Tried>, id: nat)
    ensures SeenTimes(tried, id) <= TriedTimes(tried, id)
  {
    if tried != [] { SeenIsTried(tried[..|tried| - 1], id); }
  }

  /** The j-th request after the i-th was dealt with, and where it was before. */
  function Before(i: nat, gone: bool, j: nat): nat { if gone && j >= i then j + 1 else j }

  lemma WithoutDistinct(pending: seq<Job>, i: nat)
    requires Distinct(pending) && i < |pending|
    ensures Distinct(Without(pending, i))
  {
    forall j, k | 0 <= j < k < |pending| - 1 ensures Without(pending, i)[j].id != Without(pending, i)[k].id {
      WithoutIs(pending, i, j);
      WithoutIs(pending, i, k);
      assert Before(i, true, j) < Before(i, true, k);
    }
  }

  lemma AttemptKeepsJob(s: State, s': State, i: nat, t: Tried, day: int, j: nat)
    requires IdsOk(s) && i < |s.pending| && s.pending[i].phase.Queued? && t.id == s.pending[i].id
    requires s'.tried == s.tried + [t] && s'.log == s.log && s'.nextId == s.nextId
    requires s'.pending == AfterAttempt(s.pending, i, EndingOf(t.net), day) && j < |s'.pending|
    ensures JobOk(s', s'.pending[j])
  {
    var k := Before(i, |s'.pending| < |s.pending|, j);
    if |s'.pending| < |s.pending| { WithoutIs(s.pending, i, j); }
    TimesGrow(s.tried, t, s.pending[k].id);
    assert JobOk(s, s.pending[k]);
    assert k != i ==> s'.pending[j] == s.pending[k] && s.pending[k].id != t.id;
  }

  lemma AttemptKeepsIds(s: State, s': State, i: nat, t: Tried, day: int)
    requires IdsOk(s) && i < |s.pending| && s.pending[i].phase.Queued? && t.id == s.pending[i].id && Plausible(t.net)
    requires s'.tried == s.tried + [t] && s'.log == s.log && s'.nextId == s.nextId
    requires s'.pending == AfterAttempt(s.pending, i, EndingOf(t.net), day)
    ensures IdsOk(s')
  {
    assert JobOk(s, s.pending[i]);
    forall j | 0 <= j < |s'.pending| ensures JobOk(s', s'.pending[j]) { AttemptKeepsJob(s, s', i, t, day, j); }
    forall id ensures HistoryOk(s', id) {
      assert HistoryOk(s, id);
      TimesGrow(s.tried, t, id);
    }
    if |s'.pending| < |s.pending| { WithoutDistinct(s.pending, i); }
    TriedGrows(s.tried, t);
  }

  lemma RecordKeepsIds(s: State, s': State, i: nat, e: Entry)
    requires IdsOk(s) && i < |s.pending| && s.pending[i].phase.Writing? && e.id == s.pending[i].id
    requires s'.tried == s.tried && s'.log == s.log + [e] && s'.nextId == s.nextId
    requires s'.pending == Without(s.pending, i)
    ensures IdsOk(s')
  {
    assert JobOk(s, s.pending[i]);
    forall j | 0 <= j < |s'.pending| ensures JobOk(s', s'.pending[j]) {
      WithoutIs(s.pending, i, j);
      assert JobOk(s, s.pending[Before(i, true, j)]);
      RecordTimesGrow(s.log, e, s'.pending[j].id);
    }
    forall id ensures HistoryOk(s', id) {
      assert HistoryOk(s, id);
      RecordTimesGrow(s.log, e, id);
    }
    WithoutDistinct(s.pending, i);
  }

  lemma QuietKeepsIds(s: State, s': State, amount: nat)
    requires IdsOk(s) && s'.tried == s.tried && s'.log == s.log
    requires Unmoved(s, s') || Joined(s, s', amount)
    ensures IdsOk(s')
  {
    assert HistoryOk(s, s.nextId);
    SeenIsTried(s.tried, s.nextId);
    forall j | 0 <= j < |s'.pending| ensures JobOk(s', s'.pending[j]) {
      if j < |s.pending| { assert JobOk(s, s.pending[j]); }
    }
    forall id ensures HistoryOk(s', id) { assert HistoryOk(s, id); }
    forall j, k | 0 <= j < k < |s'.pending| ensures s'.pending[j].id != s'.pending[k].id {
      assert JobOk(s, s.pending[j]);
    }
  }

  lemma StepKeepsIds(u: Setup, s: State, e: Event)
    requires IdsOk(s) && Step(u, s, e).Some?
    ensures IdsOk(Step(u, s, e).value)
  {
    var s' := Step(u, s, e).value;
    if e.Attempt? {
      var t := AttemptSteps(u, s, e.i, e.net);
      AttemptKeepsIds(s, s', e.i, t, Today(s));
    } else if e.Record? {
      var entry := RecordSteps(u, s, e.i);
      RecordKeepsIds(s, s', e.i, entry);
    } else {
      var amount := QuietSteps(u, s, e);
      QuietKeepsIds(s, s', amount);
    }
  }

  lemma {:induction false} ReplayKeepsIds(u: Setup, s: State, trace: seq<Event>)
    requires IdsOk(s) && Replay(u, s, trace).Some?
    ensures IdsOk(Replay(u, s, trace).value)
    decreases |trace|
  {
    if trace != [] {
      StepKeepsIds(u, s, trace[0]);
      ReplayKeepsIds(u, Step(u, s, trace[0]).value, trace[1..]);
    }
  }

  lemma ReachableIds(u: Setup, s: State)
    requires Reachable(u, s)
    ensures IdsOk(s)
  {
    var now: int, trace: seq<Event> :| Modern(DayOf(now)) && Replay(u, Start(now), trace) == Some(s);
    assert HistoriesOk(Start(now));
    ReplayKeepsIds(u, Start(now), trace);
  }

  lemma {:induction false} LandedIsSeenOrBlind(tried: seq<Tried>, id: nat)
    requires TriedOk(tried)
    ensures LandedTimes(tried, id) == SeenTimes(tried, id) + BlindTimes(tried, id)
    ensures LandedTimes(tried, id) <= TriedTimes(tried, id)
  {
    if tried != [] {
      LandedIsSeenOrBlind(tried[..|tried| - 1], id);
      RecordedExactlyWhen(tried[|tried| - 1].net);
    }
  }

  /** Across all retries a request is tried at most five times, is seen to land and recorded at most once, and
      lands more often than it is seen exactly as many times as it landed unseen. */
  lemma RecordedAtMostOnce(u: Setup, s: State, id: nat)
    requires Reachable(u, s)
    ensures RecordTimes(s.log, id) <= SeenTimes(s.tried, id) <= 1
    ensures LandedTimes(s.tried, id) == SeenTimes(s.tried, id) + BlindTimes(s.tried, id)
    ensures LandedTimes(s.tried, id) <= TriedTimes(s.tried, id) <= ATTEMPTS
  {
    ReachableIds(u, s);
    assert HistoryOk(s, id);
    LandedIsSeenOrBlind(s.tried, id);
  }

  /** The request is in the queue, in that phase, for that attempt. */
  predicate Stands(s: State, id: nat, attempt: nat, phase: Phase) {
    exists k :: 0 <= k < |s.pending| && s.pending[k].id == id && s.pending[k].attempt == attempt
                && s.pending[k].phase == phase
  }

  predicate IsThere(s: State, id: nat) {
    exists k :: 0 <= k < |s.pending| && s.pending[k].id == id
  }

  /** What an attempt makes of its request, after any run: it is up for its next attempt exactly when the attempt
      failed for a reason worth another and it was not the fifth; it is to be recorded under the keys of the day
      exactly when a poll saw a success and there is an amount to record; otherwise it is out of the queue. Every
      other request stays as it is. */
  lemma AttemptDecides(u: Setup, s: State, i: nat, net: Network)
    requires Reachable(u, s) && Step(u, s, Attempt(i, net)).Some?
    ensures i < |s.pending|
    ensures var s', job := Step(u, s, Attempt(i, net)).value, s.pending[i];
            var again := FaultIs(net, true) && job.attempt < ATTEMPTS;
            var toRecord := net.fate.Landed? && !Blind(net) && job.amount > 0;
            && (Stands(s', job.id, job.attempt + 1, Queued) <==> again)
            && (Stands(s', job.id, job.attempt, Writing(Today(s))) <==> toRecord)
            && (IsThere(s', job.id) <==> again || toRecord)
            && forall k :: 0 <= k < |s.pending| && k != i ==> s.pending[k] in s'.pending
  {
    ReachableIds(u, s);
    var t := AttemptSteps(u, s, i, net);
    ThrowsExactlyWhen(net, true);
    RecordedExactlyWhen(net);
    AttemptFinds(s.pending, i, EndingOf(net), Today(s));
  }

  /** Where the requests are afterwards. */
  lemma AttemptFinds(pending: seq<Job>, i: nat, ending: Ending, day: int)
    requires Distinct(pending) && i < |pending|
    ensures var after, job := AfterAttempt(pending, i, ending, day), pending[i];
            && (forall k :: 0 <= k < |pending| && k != i ==> pending[k] in after)
            && (if ending == Done(true) && job.amount > 0 then
                  i < |after| && after[i] == job.(phase := Writing(day)) && OnlyAt(after, i, job.id)
                else if ending == Threw(true) && job.attempt < ATTEMPTS then
                  i < |after| && after[i] == job.(attempt := job.attempt + 1) && OnlyAt(after, i, job.id)
                else forall k :: 0 <= k < |after| ==> after[k].id != job.id)
  {
    var after := AfterAttempt(pending, i, ending, day);
    if |after| == |pending| {
      forall k | 0 <= k < |pending| && k != i ensures pending[k] in after { assert after[k] == pending[k]; }
    } else {
      forall k | 0 <= k < |after| ensures after[k].id != pending[i].id { WithoutIs(pending, i, k); }
      forall k | 0 <= k < |pending| && k != i ensures pending[k] in after {
        assert after[if k < i then k else k - 1] == pending[k];
      }
    }
  }

  predicate OnlyAt(pending: seq<Job>, i: nat, id: nat) {
    forall k :: 0 <= k < |pending| && k != i ==> pending[k].id != id
  }
}
