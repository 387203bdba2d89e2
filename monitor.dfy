/** The print-job monitor (`monitorPrintJob`): every tick of a two-second
    ticker polls the printer and either keeps watching or stops. The ticker and
    the clock are replaced by a caller-supplied sequence of polls, each the
    result of one status fetch and the time elapsed since monitoring began. */
module Monitor {
  import opened Text
  import opened Poller

  const NANOS_PER_SECOND: int := 1_000_000_000

  /** The largest timeout, in seconds, whose duration in nanoseconds still
      fits a signed 64-bit integer. */
  const MAX_EXACT_TIMEOUT: int := 9_223_372_036

  /** What a tick reports without stopping: the out-of-paper warning, the
      paper-restored notice, and a progress line with the queue depth, the
      status label and the elapsed time. */
  datatype Event = PaperWarning | PaperRestored | Progress(jobs: int64, status: string, elapsed: nat)

  /** Why monitoring ended. */
  datatype Stop = FetchError | Completed | PrinterError(message: string) | TimedOut

  datatype Outcome = Continue | Stopped(reason: Stop)

  /** The two variables the monitor carries from tick to tick. */
  datatype MonitorState = MonitorState(previousJobs: int64, paperWarningShown: bool)

  /** Before the first tick no depth has been shown and no warning given. */
  const INITIAL_STATE: MonitorState := MonitorState(-1, false)

  /** One ticker tick: the status fetch and the elapsed time in nanoseconds. */
  datatype Poll = Poll(fetch: StatusFetch, elapsed: nat)

  datatype TickResult = TickResult(events: seq<Event>, state: MonitorState, outcome: Outcome)

  datatype RunResult = RunResult(events: seq<Event>, outcome: Outcome)

  /** Two's-complement wrap-around of a product into a signed 64-bit integer. */
  function Wrap64(x: int): (r: int64)
    ensures (r - x) % 0x1_0000_0000_0000_0000 == 0
    ensures MIN_INT64 <= x <= MAX_INT64 ==> r == x
  {
    var m := x % 0x1_0000_0000_0000_0000;
    if m > MAX_INT64 then m - 0x1_0000_0000_0000_0000 else m
  }

  /** The timeout test as the source writes it: the timeout converted to a
      Duration by a 64-bit multiplication that wraps around. */
  predicate TimeoutExpiredAsWritten(timeoutSec: int64, elapsed: nat) {
    timeoutSec > 0 && elapsed > Wrap64(timeoutSec as int * NANOS_PER_SECOND)
  }

  /** The timeout test as intended: a positive timeout has passed once more
      than that many seconds have elapsed. */
  predicate TimeoutExpired(timeoutSec: int64, elapsed: nat) {
    timeoutSec > 0 && elapsed > timeoutSec as int * NANOS_PER_SECOND
  }

  /** The two tests agree for every timeout up to about 292 years. */
  lemma TimeoutAgreesWithoutOverflow(timeoutSec: int64, elapsed: nat)
    requires timeoutSec <= MAX_EXACT_TIMEOUT
    ensures TimeoutExpiredAsWritten(timeoutSec, elapsed) <==> TimeoutExpired(timeoutSec, elapsed)
  {
    if timeoutSec > 0 {
      assert timeoutSec as int * NANOS_PER_SECOND <= MAX_EXACT_TIMEOUT * NANOS_PER_SECOND;
    }
  }

  /** One second more and the product wraps to a negative duration: the test
      as written fires at once, at any elapsed time, while the intended test
      would not fire for centuries. */
  lemma TimeoutOverflowCounterexample(elapsed: nat)
    requires elapsed <= MAX_INT64
    ensures TimeoutExpiredAsWritten(9_223_372_037, elapsed)
    ensures !TimeoutExpired(9_223_372_037, elapsed)
  {
    assert Wrap64(9_223_372_037 * NANOS_PER_SECOND) == 9_223_372_037_000_000_000 - 0x1_0000_0000_0000_0000;
  }

  /** The paper check of a tick: a warning when paper runs out for the first
      time, a notice when it comes back after a warning, otherwise nothing. */
  function PaperEvents(shown: bool, hasPaper: bool): seq<Event> {
    if !hasPaper then (if !shown then [PaperWarning] else [])
    else (if shown then [PaperRestored] else [])
  }

  /** One tick: a failed fetch stops; an empty queue completes; then the paper
      check, the error check, the progress line and, last, the timeout. */
  function Step(st: MonitorState, fetch: StatusFetch, elapsed: nat, timeoutSec: int64): TickResult {
    match fetch
    case FetchFailed => TickResult([], st, Stopped(FetchError))
    case Fetched(s) =>
      if s.jobsInQueue == 0 then TickResult([], st, Stopped(Completed))
      else
        var paper := PaperEvents(st.paperWarningShown, s.hasPaper);
        var shown := !s.hasPaper;
        if s.hasError then
          TickResult(paper, st.(paperWarningShown := shown), Stopped(PrinterError(s.errorMsg)))
        else
          var changed := s.jobsInQueue != st.previousJobs;
          var events := if changed then paper + [Progress(s.jobsInQueue, s.status, elapsed)] else paper;
          var next := MonitorState(if changed then s.jobsInQueue else st.previousJobs, shown);
          TickResult(events, next, if TimeoutExpired(timeoutSec, elapsed) then Stopped(TimedOut) else Continue)
  }

  /** The ticks from the i-th on, until one stops monitoring or the polls run
      out (monitoring would then go on). */
  function RunFrom(st: MonitorState, polls: seq<Poll>, timeoutSec: int64, i: nat): RunResult
    requires i <= |polls|
    decreases |polls| - i
  {
    if i == |polls| then RunResult([], Continue)
    else
      var r := Step(st, polls[i].fetch, polls[i].elapsed, timeoutSec);
      if r.outcome.Stopped? then RunResult(r.events, r.outcome)
      else
        var rest := RunFrom(r.state, polls, timeoutSec, i + 1);
        RunResult(r.events + rest.events, rest.outcome)
  }

  /** monitorPrintJob over the given polls. */
  function Run(polls: seq<Poll>, timeoutSec: int64): RunResult {
    RunFrom(INITIAL_STATE, polls, timeoutSec, 0)
  }

  /** The monitor's state, updated in place tick by tick. */
  class JobMonitor {
    var previousJobs: int64
    var paperWarningShown: bool
    const timeoutSec: int64

    constructor (timeoutSec: int64)
      ensures State() == INITIAL_STATE && this.timeoutSec == timeoutSec
    {
      previousJobs := -1;
      paperWarningShown := false;
      this.timeoutSec := timeoutSec;
    }

    function State(): MonitorState
      reads this
    {
      MonitorState(previousJobs, paperWarningShown)
    }

    /** The body of the ticker case of monitorPrintJob. */
    method Tick(fetch: StatusFetch, elapsed: nat) returns (events: seq<Event>, outcome: Outcome)
      modifies this
      ensures TickResult(events, State(), outcome) == Step(old(State()), fetch, elapsed, timeoutSec)
    {
      events := [];
      if fetch.FetchFailed? {
        return events, Stopped(FetchError);
      }
      var status := fetch.snapshot;
      if status.jobsInQueue == 0 {
        return events, Stopped(Completed);
      }
      if !status.hasPaper {
        if !paperWarningShown {
          events := events + [PaperWarning];
          paperWarningShown := true;
        }
      } else {
        if paperWarningShown {
          events := events + [PaperRestored];
          paperWarningShown := false;
        }
      }
      if status.hasError {
        return events, Stopped(PrinterError(status.errorMsg));
      }
      if status.jobsInQueue != previousJobs {
        events := events + [Progress(status.jobsInQueue, status.status, elapsed)];
        previousJobs := status.jobsInQueue;
      }
      if timeoutSec > 0 && elapsed > timeoutSec as int * NANOS_PER_SECOND {
        return events, Stopped(TimedOut);
      }
      outcome := Continue;
    }
  }

  /** monitorPrintJob: a fresh monitor ticks through the polls until a tick
      stops it. */
  method MonitorPrintJob(timeoutSec: int64, polls: seq<Poll>) returns (events: seq<Event>, outcome: Outcome)
    ensures RunResult(events, outcome) == Run(polls, timeoutSec)
  {
    var monitor := new JobMonitor(timeoutSec);
    events := [];
    outcome := Continue;
    var i := 0;
    while i < |polls| && outcome == Continue
      invariant 0 <= i <= |polls|
      invariant monitor.timeoutSec == timeoutSec
      invariant outcome == Continue ==>
        var rest := RunFrom(monitor.State(), polls, timeoutSec, i);
        Run(polls, timeoutSec) == RunResult(events + rest.events, rest.outcome)
      invariant outcome.Stopped? ==> Run(polls, timeoutSec) == RunResult(events, outcome)
      decreases |polls| - i
    {
      ghost var before := events;
      var tickEvents, tickOutcome := monitor.Tick(polls[i].fetch, polls[i].elapsed);
      events := events + tickEvents;
      outcome := tickOutcome;
      i := i + 1;
      if outcome == Continue {
        var rest := RunFrom(monitor.State(), polls, timeoutSec, i);
        assert before + (tickEvents + rest.events) == events + rest.events;
      }
    }
    if outcome == Continue {
      assert RunFrom(monitor.State(), polls, timeoutSec, i).events == [];
      assert events + [] == events;
    }
  }

  /** A failed fetch ends monitoring at once: no event, no state change. */
  lemma FetchFailureStops(st: MonitorState, elapsed: nat, timeoutSec: int64)
    ensures Step(st, FetchFailed, elapsed, timeoutSec) == TickResult([], st, Stopped(FetchError))
  {
  }

  /** An empty queue completes before any paper, error, progress or timeout
      check: no event and no state change, whatever else the snapshot says. */
  lemma EmptyQueueCompletes(st: MonitorState, s: PrinterStatus, elapsed: nat, timeoutSec: int64)
    requires s.jobsInQueue == 0
    ensures Step(st, Fetched(s), elapsed, timeoutSec) == TickResult([], st, Stopped(Completed))
  {
  }

  /** After a tick that got past the empty-queue check, the warning flag is
      set exactly when the printer is out of paper. */
  lemma PaperFlagTracksPaper(st: MonitorState, s: PrinterStatus, elapsed: nat, timeoutSec: int64)
    requires s.jobsInQueue != 0
    ensures Step(st, Fetched(s), elapsed, timeoutSec).state.paperWarningShown == !s.hasPaper
  {
  }

  /** The warning is given only when paper is out and no warning is standing;
      the notice only when paper is back after a warning. */
  lemma PaperNotices(st: MonitorState, s: PrinterStatus, elapsed: nat, timeoutSec: int64)
    requires s.jobsInQueue != 0
    ensures var r := Step(st, Fetched(s), elapsed, timeoutSec);
      && (PaperWarning in r.events <==> !s.hasPaper && !st.paperWarningShown)
      && (PaperRestored in r.events <==> s.hasPaper && st.paperWarningShown)
  {
  }

  /** A printer error stops monitoring even with jobs queued, after the paper
      check has run and before any progress line or timeout check. */
  lemma PrinterErrorStops(st: MonitorState, s: PrinterStatus, elapsed: nat, timeoutSec: int64)
    requires s.jobsInQueue != 0 && s.hasError
    ensures var r := Step(st, Fetched(s), elapsed, timeoutSec);
      && r.outcome == Stopped(PrinterError(s.errorMsg))
      && r.events == PaperEvents(st.paperWarningShown, s.hasPaper)
      && r.state.previousJobs == st.previousJobs
  {
  }

  /** A tick that gets to the progress check shows the depth exactly when it
      differs from the last one shown, and remembers it. */
  lemma ProgressOnChange(st: MonitorState, s: PrinterStatus, elapsed: nat, timeoutSec: int64)
    requires s.jobsInQueue != 0 && !s.hasError
    ensures var r := Step(st, Fetched(s), elapsed, timeoutSec);
      && (Progress(s.jobsInQueue, s.status, elapsed) in r.events <==> s.jobsInQueue != st.previousJobs)
      && r.state.previousJobs == s.jobsInQueue
  {
    var r := Step(st, Fetched(s), elapsed, timeoutSec);
    var paper := PaperEvents(st.paperWarningShown, s.hasPaper);
    assert Progress(s.jobsInQueue, s.status, elapsed) !in paper;
    if s.jobsInQueue != st.previousJobs {
      assert r.events[|r.events| - 1] == Progress(s.jobsInQueue, s.status, elapsed);
    }
  }

  /** The first tick shows the depth unless it is -1, the initial value. */
  lemma FirstTickShowsDepth(s: PrinterStatus, elapsed: nat, timeoutSec: int64)
    requires s.jobsInQueue != 0 && !s.hasError
    ensures Progress(s.jobsInQueue, s.status, elapsed) in Step(INITIAL_STATE, Fetched(s), elapsed, timeoutSec).events
      <==> s.jobsInQueue != -1
  {
    ProgressOnChange(INITIAL_STATE, s, elapsed, timeoutSec);
  }

  /** The timeout is checked last: a tick times out exactly when it got past
      the fetch, empty-queue and error checks and the timeout has passed. */
  lemma TimeoutChecksLast(st: MonitorState, fetch: StatusFetch, elapsed: nat, timeoutSec: int64)
    ensures Step(st, fetch, elapsed, timeoutSec).outcome == Stopped(TimedOut) <==>
      fetch.Fetched? && fetch.snapshot.jobsInQueue != 0 && !fetch.snapshot.hasError
      && TimeoutExpired(timeoutSec, elapsed)
  {
  }

  /** For every timeout whose Duration fits in 64 bits, a tick times out
      exactly when the test as the source writes it fires. */
  lemma StepTimesOutAsWritten(st: MonitorState, fetch: StatusFetch, elapsed: nat, timeoutSec: int64)
    requires timeoutSec <= MAX_EXACT_TIMEOUT
    ensures Step(st, fetch, elapsed, timeoutSec).outcome == Stopped(TimedOut) <==>
      fetch.Fetched? && fetch.snapshot.jobsInQueue != 0 && !fetch.snapshot.hasError
      && TimeoutExpiredAsWritten(timeoutSec, elapsed)
  {
    TimeoutChecksLast(st, fetch, elapsed, timeoutSec);
    TimeoutAgreesWithoutOverflow(timeoutSec, elapsed);
  }

  /** Once a run has stopped, polls after the stopping one change nothing. */
  lemma {:induction false} RunIgnoresLaterPolls(st: MonitorState, polls: seq<Poll>, more: seq<Poll>, timeoutSec: int64, i: nat)
    requires i <= |polls|
    requires RunFrom(st, polls, timeoutSec, i).outcome.Stopped?
    ensures RunFrom(st, polls + more, timeoutSec, i) == RunFrom(st, polls, timeoutSec, i)
    decreases |polls| - i
  {
    assert (polls + more)[i] == polls[i];
    var r := Step(st, polls[i].fetch, polls[i].elapsed, timeoutSec);
    if r.outcome.Continue? {
      RunIgnoresLaterPolls(r.state, polls, more, timeoutSec, i + 1);
    }
  }

  /** With no timeout (zero or negative), as the command-line entry point
      calls it, the monitor never times out. */
  lemma {:induction false} NoTimeoutWhenUnlimited(st: MonitorState, polls: seq<Poll>, timeoutSec: int64, i: nat)
    requires i <= |polls| && timeoutSec <= 0
    ensures RunFrom(st, polls, timeoutSec, i).outcome != Stopped(TimedOut)
    decreases |polls| - i
  {
    if i < |polls| {
      var r := Step(st, polls[i].fetch, polls[i].elapsed, timeoutSec);
      TimeoutChecksLast(st, polls[i].fetch, polls[i].elapsed, timeoutSec);
      if r.outcome.Continue? {
        NoTimeoutWhenUnlimited(r.state, polls, timeoutSec, i + 1);
      }
    }
  }

  /** A run that times out does so at a poll whose elapsed time is past the
      timeout. */
  lemma {:induction false} TimeoutOnlyAfterDeadline(st: MonitorState, polls: seq<Poll>, timeoutSec: int64, i: nat)
    requires i <= |polls|
    requires RunFrom(st, polls, timeoutSec, i).outcome == Stopped(TimedOut)
    ensures exists k :: i <= k < |polls| && TimeoutExpired(timeoutSec, polls[k].elapsed)
    decreases |polls| - i
  {
    var r := Step(st, polls[i].fetch, polls[i].elapsed, timeoutSec);
    TimeoutChecksLast(st, polls[i].fetch, polls[i].elapsed, timeoutSec);
    if r.outcome.Continue? {
      TimeoutOnlyAfterDeadline(r.state, polls, timeoutSec, i + 1);
    }
  }

  /** A tick during a paper shortage: jobs still queued, no paper, no error. */
  predicate ShortageTick(p: Poll) {
    p.fetch.Fetched? && p.fetch.snapshot.jobsInQueue != 0
    && !p.fetch.snapshot.hasPaper && !p.fetch.snapshot.hasError
  }

  /** Through any number of consecutive shortage ticks the warning is given
      once, or not at all when it is already standing. */
  lemma {:induction false} ShortageWarnsOnce(st: MonitorState, polls: seq<Poll>, timeoutSec: int64, i: nat)
    requires i < |polls|
    requires forall k :: i <= k < |polls| ==> ShortageTick(polls[k])
    ensures multiset(RunFrom(st, polls, timeoutSec, i).events)[PaperWarning]
      == if st.paperWarningShown then 0 else 1
    decreases |polls| - i
  {
    assert ShortageTick(polls[i]);
    var r := Step(st, polls[i].fetch, polls[i].elapsed, timeoutSec);
    assert multiset(r.events)[PaperWarning] == if st.paperWarningShown then 0 else 1;
    if r.outcome.Continue? && i + 1 < |polls| {
      ShortageWarnsOnce(r.state, polls, timeoutSec, i + 1);
      var rest := RunFrom(r.state, polls, timeoutSec, i + 1);
      assert multiset(r.events + rest.events) == multiset(r.events) + multiset(rest.events);
    }
  }

  /** Queue depths 5, 5, 3, 0 on successive ticks: progress at 5, nothing,
      progress at 3, then completion. */
  lemma DepthsExample()
    ensures Run([DepthPoll(5, 2), DepthPoll(5, 4), DepthPoll(3, 6), DepthPoll(0, 8)], 0)
      == RunResult([Progress(5, "Ready", 2 * NANOS_PER_SECOND), Progress(3, "Ready", 6 * NANOS_PER_SECOND)], Stopped(Completed))
  {
    var polls := [DepthPoll(5, 2), DepthPoll(5, 4), DepthPoll(3, 6), DepthPoll(0, 8)];
    var s1 := MonitorState(5, false);
    var s3 := MonitorState(3, false);
    assert RunFrom(s3, polls, 0, 3) == RunResult([], Stopped(Completed));
    assert RunFrom(s1, polls, 0, 2) == RunResult([Progress(3, "Ready", 6 * NANOS_PER_SECOND)], Stopped(Completed));
    assert RunFrom(s1, polls, 0, 1) == RunFrom(s1, polls, 0, 2);
  }

  /** A ready printer with the given depth, polled at the given second. */
  function DepthPoll(jobs: int64, second: nat): Poll {
    Poll(Fetched(PrinterStatus("MP230", "Ready", jobs, true, true, false, "")), second * NANOS_PER_SECOND)
  }
}
