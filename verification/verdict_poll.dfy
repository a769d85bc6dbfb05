/**
 * The judge's report is awaited by polling (`requestVerdict`): every two
 * seconds the timer checks that the debate is still active, counts an
 * attempt, reads the judge's latest reply, and accepts it as soon as it holds
 * the opening sentinel of the audit block; after 300 attempts it gives up.
 * The timer is modelled by the sequence of what each tick observes.
 */
module VerdictPolling {
  import opened Strings
  import opened Optional
  import opened VerdictParser

  /** The number of attempts before the poll gives up (ten minutes at two seconds each). */
  const MaxAttempts: nat := 300

  /** What one tick of the timer observes: whether the debate is active, and the judge's latest reply, if any. */
  datatype Tick = Tick(active: bool, response: Option<string>)

  datatype PollOutcome =
    | Accepted(attempts: nat, report: string)  // the report was stored and assessed
    | Cancelled(attempts: nat)                 // the debate was no longer active
    | TimedOut                                 // 300 attempts without a report
    | StillWaiting(attempts: nat)              // the ticks observed so far ended the poll neither way

  /** A reply is taken as the report when it is non-empty and holds the opening sentinel. */
  predicate Accepts(response: Option<string>) {
    response.Some? && response.value != "" && Contains(response.value, OpeningSentinel)
  }

  /** The first `k` ticks saw an active debate and no acceptable reply. */
  predicate Quiet(ticks: seq<Tick>, k: nat)
    requires k <= |ticks|
  {
    forall j :: 0 <= j < k ==> ticks[j].active && !Accepts(ticks[j].response)
  }

  /** The outcome of the poll from tick `i` on, after `i` attempts that found nothing. */
  function PollFrom(ticks: seq<Tick>, i: nat): (r: PollOutcome)
    requires i <= |ticks| && i < MaxAttempts
    ensures r.Accepted? ==>
      && i < r.attempts <= |ticks| && r.attempts <= MaxAttempts
      && ticks[r.attempts - 1].active && ticks[r.attempts - 1].response == Some(r.report)
      && Accepts(ticks[r.attempts - 1].response)
    ensures r.Cancelled? ==> i <= r.attempts < |ticks| && !ticks[r.attempts].active
    ensures r.TimedOut? ==> MaxAttempts <= |ticks|
    ensures r.StillWaiting? ==> r.attempts == |ticks|
    decreases |ticks| - i
  {
    if i == |ticks| then StillWaiting(i)
    else if !ticks[i].active then Cancelled(i)
    else if Accepts(ticks[i].response) then Accepted(i + 1, ticks[i].response.value)
    else if i + 1 >= MaxAttempts then TimedOut
    else PollFrom(ticks, i + 1)
  }

  function Poll(ticks: seq<Tick>): (r: PollOutcome)
    ensures r.StillWaiting? <==> |ticks| < MaxAttempts && Quiet(ticks, |ticks|)
  {
    PollFromMeaning(ticks, 0);
    PollFrom(ticks, 0)
  }

  /** What each outcome of the poll from tick `i` tells about the ticks. */
  lemma {:induction false} PollFromMeaning(ticks: seq<Tick>, i: nat)
    requires i <= |ticks| && i < MaxAttempts && Quiet(ticks, i)
    ensures match PollFrom(ticks, i)
      case Accepted(a, r) =>
        && i < a <= MaxAttempts && a <= |ticks| && Quiet(ticks, a - 1)
        && ticks[a - 1].active && ticks[a - 1].response == Some(r) && Contains(r, OpeningSentinel)
      case Cancelled(a) => i <= a < MaxAttempts && a < |ticks| && Quiet(ticks, a) && !ticks[a].active
      case TimedOut => MaxAttempts <= |ticks| && Quiet(ticks, MaxAttempts)
      case StillWaiting(a) => a == |ticks| < MaxAttempts && Quiet(ticks, a)
    decreases |ticks| - i
  {
    if i < |ticks| && ticks[i].active && !Accepts(ticks[i].response) {
      assert Quiet(ticks, i + 1);
      if i + 1 < MaxAttempts {
        PollFromMeaning(ticks, i + 1);
      }
    }
  }

  /**
   * The poll accepts the first acceptable reply seen while the debate is
   * active, stops at the first tick that finds it inactive, and otherwise
   * gives up after exactly 300 fruitless attempts; an accepted report always
   * holds the sentinel.
   */
  lemma PollMeaning(ticks: seq<Tick>)
    ensures match Poll(ticks)
      case Accepted(a, r) =>
        && 1 <= a <= MaxAttempts && a <= |ticks| && Quiet(ticks, a - 1)
        && ticks[a - 1].active && ticks[a - 1].response == Some(r) && Contains(r, OpeningSentinel)
      case Cancelled(a) => a < MaxAttempts && a < |ticks| && Quiet(ticks, a) && !ticks[a].active
      case TimedOut => MaxAttempts <= |ticks| && Quiet(ticks, MaxAttempts)
      case StillWaiting(a) => a == |ticks| < MaxAttempts && Quiet(ticks, a)
  {
    PollFromMeaning(ticks, 0);
  }

  /** Ticks after the poll has ended change nothing. */
  lemma {:induction false} LaterTicksIgnored(ticks: seq<Tick>, more: seq<Tick>, i: nat)
    requires i <= |ticks| && i < MaxAttempts
    requires !PollFrom(ticks, i).StillWaiting?
    ensures PollFrom(ticks + more, i) == PollFrom(ticks, i)
    decreases |ticks| - i
  {
    assert (ticks + more)[i] == ticks[i];
    if ticks[i].active && !Accepts(ticks[i].response) && i + 1 < MaxAttempts {
      LaterTicksIgnored(ticks, more, i + 1);
    }
  }

  /** A reply that holds the opening sentinel has an audit block, so the parser never reports it missing. */
  lemma AcceptedReportHasBlock(report: string)
    requires Contains(report, OpeningSentinel)
    ensures AuditBlock(report).Some?
    ensures ParseVerdictResult(report).parseErrors == []
  {
    var n := IndexOf(report, OpeningSentinel);
    assert report[n..n + 10] == report[n..][..10];
    SentinelAtOpening(report, n);
  }

  /** Whatever the judge wrote around the sentinel, a report the poll accepts is parsed without a block error. */
  lemma AcceptedReportsParse(ticks: seq<Tick>)
    requires Poll(ticks).Accepted?
    ensures ParseVerdictResult(Poll(ticks).report).parseErrors == []
  {
    PollMeaning(ticks);
    AcceptedReportHasBlock(Poll(ticks).report);
  }

  /** The timer callback, run over the ticks until the poll ends. */
  method PollVerdict(ticks: seq<Tick>) returns (outcome: PollOutcome)
    ensures outcome == Poll(ticks)
  {
    var attempts := 0;
    var i := 0;
    while i < |ticks|
      invariant 0 <= i <= |ticks| && i < MaxAttempts && attempts == i
      invariant PollFrom(ticks, i) == Poll(ticks)
      decreases |ticks| - i
    {
      if !ticks[i].active {
        return Cancelled(attempts);
      }
      attempts := attempts + 1;
      var response := ticks[i].response;
      if response.Some? && response.value != "" && Contains(response.value, OpeningSentinel) {
        return Accepted(attempts, response.value);
      }
      if attempts >= MaxAttempts {
        return TimedOut;
      }
      i := i + 1;
    }
    return StillWaiting(attempts);
  }
}
