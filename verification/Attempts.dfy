/** One attempt at getting a transaction through: what the network does with it, how the worker reads
    that, and when the two differ. */
module Attempts {

  const POLLS: nat := 12
  const ATTEMPTS: nat := 5

  /** Attempts count from one. */
  type Ordinal = n: nat | n >= 1 witness 1

  /** What one poll for the transaction comes back with. */
  datatype PollAnswer = NotFound | Success | Failed(badSeq: bool) | PollThrew(retryable: bool)

  /** How far sending gets. A fault before sending, a refusal and an exception carry whether the worker
      classifies them as worth another attempt. */
  datatype Sending =
    | NotSent(retryable: bool)
    | BadSequence
    | Rejected(retryable: bool)
    | SendThrew(retryable: bool)
    | Accepted

  /** What becomes of the transaction on the ledger, in the end. */
  datatype Fate = Absent | Landed | Reverted

  type Polls = polls: seq<PollAnswer> | |polls| == POLLS witness seq(POLLS, _ => NotFound)

  /** `prompt` says that the ledger has it by the time polling starts, `knownLate` that the lookup after
      the last poll finds it. */
  datatype Network = Network(sending: Sending, fate: Fate, prompt: bool, polls: Polls, knownLate: bool)

  /** Answers that a network can give: nothing is reported that did not happen. It may well stay silent
      about what did. */
  predicate Plausible(net: Network) {
    && (Success in net.polls ==> net.fate.Landed?)
    && ((exists k :: 0 <= k < POLLS && net.polls[k].Failed?) ==> !net.fate.Landed?)
    && (net.knownLate || net.prompt ==> !net.fate.Absent?)
    && (net.sending.NotSent? || net.sending.BadSequence? || net.sending.Rejected? ==> net.fate.Absent?)
  }

  /** How the attempt ends for the worker: with a success, recorded or not, or with an exception. */
  datatype Ending = Done(recorded: bool) | Threw(retryable: bool)

  /** The first poll from `from` on that is not "not found", or POLLS. */
  function FirstAnswer(polls: Polls, from: nat): (k: nat)
    requires from <= POLLS
    ensures from <= k <= POLLS
    ensures forall j :: from <= j < k ==> polls[j] == NotFound
    ensures k < POLLS ==> polls[k] != NotFound
    decreases POLLS - from
  {
    if from == POLLS || polls[from] != NotFound then from else FirstAnswer(polls, from + 1)
  }

  function EndingOf(net: Network): Ending {
    match net.sending
    case NotSent(retryable) => Threw(retryable)
    case BadSequence => Threw(true)
    case Rejected(retryable) => Threw(retryable)
    case SendThrew(retryable) => Threw(retryable)
    case Accepted =>
      var k := FirstAnswer(net.polls, 0);
      if k == POLLS then if net.knownLate then Done(false) else Threw(true)
      else match net.polls[k]
        case Success => Done(true)
        case Failed(badSeq) => Threw(badSeq)
        case PollThrew(retryable) => Threw(retryable)
  }

  /** All twelve polls go by without an answer. */
  predicate Silent(net: Network) {
    forall k :: 0 <= k < POLLS ==> net.polls[k] == NotFound
  }

  /** The first poll that is answered at all is answered by an exception. */
  predicate CutOff(net: Network) {
    exists k :: 0 <= k < POLLS && net.polls[k].PollThrew? && forall j :: 0 <= j < k ==> net.polls[j] == NotFound
  }

  /** The transaction lands and the worker does not see it: sending threw, the polls ran out, or the
      first answer was an exception. */
  predicate Blind(net: Network) {
    net.fate.Landed? && (net.sending.SendThrew? || (net.sending.Accepted? && (Silent(net) || CutOff(net))))
  }

  /** An attempt is recorded only if its transaction lands, and one that lands is recorded exactly when
      sending returned and a poll within the twelve said so before anything went wrong. */
  lemma RecordedExactlyWhen(net: Network)
    requires Plausible(net)
    ensures EndingOf(net) == Done(true) ==> net.fate.Landed?
    ensures net.fate.Landed? ==> (EndingOf(net) == Done(true) <==> !Blind(net))
  {
    var k := FirstAnswer(net.polls, 0);
    if net.sending.Accepted? && k < POLLS {
      assert net.polls[k] in net.polls;
      if CutOff(net) {
        var c :| 0 <= c < POLLS && net.polls[c].PollThrew? && forall j :: 0 <= j < c ==> net.polls[j] == NotFound;
        assert c == k;
      }
    }
  }

  /** The transaction landed and a poll said so before anything went wrong, or all polls went by unanswered and
      the lookup after them found it: these are the attempts reported to the caller as a success. */
  lemma SuccessReportedExactlyWhen(net: Network)
    requires Plausible(net)
    ensures EndingOf(net).Done? <==>
              net.sending.Accepted? && ((net.fate.Landed? && !Blind(net)) || (Silent(net) && net.knownLate))
  {
    FirstIsFirst(net);
    RecordedExactlyWhen(net);
  }

  /** A transaction that was reverted is reported as a success exactly when no poll was answered and the lookup,
      which asks only whether the ledger knows it, finds it. */
  lemma RevertedReportedExactlyWhen(net: Network)
    requires Plausible(net) && net.fate.Reverted?
    ensures EndingOf(net).Done? <==> net.sending.Accepted? && Silent(net) && net.knownLate
  {
    SuccessReportedExactlyWhen(net);
  }

  /** It can be. */
  lemma RevertedIsReported() returns (net: Network)
    ensures Plausible(net) && net.fate.Reverted? && EndingOf(net) == Done(false)
  {
    net := Network(Accepted, Reverted, true, seq(POLLS, _ => NotFound), true);
    assert Silent(net);
    SuccessReportedExactlyWhen(net);
    RecordedExactlyWhen(net);
  }

  /** What ended the attempt without a success, and whether that is worth another: sending failed, the first
      poll that was answered reported a failure or threw, or nobody ever knew of the transaction. */
  ghost predicate FaultIs(net: Network, retryable: bool) {
    match net.sending
    case Accepted =>
      || (Silent(net) && !net.knownLate && retryable)
      || exists k ::
           FirstAnsweredAt(net, k) && (net.polls[k] == Failed(retryable) || net.polls[k] == PollThrew(retryable))
    case BadSequence => retryable
    case sending => sending == NotSent(retryable) || sending == Rejected(retryable) || sending == SendThrew(retryable)
  }

  ghost predicate FirstAnsweredAt(net: Network, k: int) {
    0 <= k < POLLS && net.polls[k] != NotFound && forall j :: 0 <= j < k ==> net.polls[j] == NotFound
  }

  lemma FirstIsFirst(net: Network)
    ensures var k := FirstAnswer(net.polls, 0);
            if k == POLLS then Silent(net) else FirstAnsweredAt(net, k)
    ensures forall k :: FirstAnsweredAt(net, k) ==> k == FirstAnswer(net.polls, 0)
  {
  }

  /** An attempt ends in an exception exactly when something went wrong, and the exception is worth another
      attempt exactly when that was. */
  lemma ThrowsExactlyWhen(net: Network, retryable: bool)
    ensures EndingOf(net) == Threw(retryable) <==> FaultIs(net, retryable)
  {
    FirstIsFirst(net);
  }
}
