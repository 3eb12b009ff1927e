/**
 The restart loop of the container monitor, run against an arbitrary environment.

 A script lists, round by round, what the environment does: how the process ends and how long it ran,
 and in which of the windows between the steps of the loop requests to stop arrive.  All statements
 are about every script, so about every interleaving of the loop with requests to stop.
 */
module MonitorRuns {

  datatype Policy = No | Always | UnlessStopped | OnFailure(max: int)

  datatype RunError = NoError | NotFound | NotInvokable | OtherError

  /** How one run of the process ended: the driver's error, the exit code, and how long it took. */
  datatype Exit = Exit(error: RunError, exitCode: int, seconds: real)

  /** One turn of the loop; the counts are of requests to stop in the window before the process starts,
      in the one up to `shouldRestart`, and in the one up to the check after the wait. */
  datatype Round = Round(logOk: bool, before: nat, exit: Exit, during: nat, shuttingDown: bool, waiting: nat)

  datatype Event = Started | Ended(seconds: real) | StopRequested | Waited(nanoseconds: int)

  datatype Monitor = Monitor(
    policy: Policy,
    failureCount: nat,
    shouldStop: bool,
    stopCloses: nat,          // how often stopChan was closed
    timeIncrement: int,       // milliseconds, a 64-bit integer
    restartCount: int,
    manuallyStopped: bool,
    exitCode: int,
    trace: seq<Event>)

  datatype Outcome = Going | Over(error: RunError) | LoggingFailed | CannotStart(error: RunError)

  const DEFAULT_TIME_INCREMENT := 100

  function New(policy: Policy): Monitor {
    Monitor(policy, 0, false, 0, DEFAULT_TIME_INCREMENT, -1, false, 0, [])
  }

  /** 64-bit arithmetic wraps around. */
  function Wrap64(x: int): (r: int)
    ensures -0x8000_0000_0000_0000 <= r < 0x8000_0000_0000_0000
  {
    (x + 0x8000_0000_0000_0000) % 0x1_0000_0000_0000_0000 - 0x8000_0000_0000_0000
  }

  // ----- The steps -----

  function ExitOnNext(m: Monitor): Monitor {
    var n := m.(trace := m.trace + [StopRequested]);
    if m.shouldStop then n else n.(shouldStop := true, stopCloses := m.stopCloses + 1)
  }

  function Requests(m: Monitor, n: nat): Monitor {
    if n == 0 then m else ExitOnNext(Requests(m, n - 1))
  }

  function ResetMonitor(m: Monitor, successful: bool, seconds: real): Monitor {
    m.(timeIncrement := if seconds > 10.0 then DEFAULT_TIME_INCREMENT else Wrap64(m.timeIncrement * 2),
       failureCount := if successful then 0 else m.failureCount + 1)
  }

  function ShouldRestart(m: Monitor, exitCode: int, shuttingDown: bool): (bool, Monitor) {
    if m.shouldStop then (false, m.(manuallyStopped := !shuttingDown))
    else
      match m.policy
      case Always => (true, m)
      case UnlessStopped => (true, m)
      case OnFailure(max) => (!(max != 0 && m.failureCount > max) && exitCode != 0, m)
      case No => (false, m)
  }

  /** How long the wait before the next restart is meant to take. */
  function Delay(m: Monitor): int {
    Wrap64(m.timeIncrement * 1_000_000)
  }

  function StartExitCode(e: RunError): int {
    match e
    case NotFound => 127
    case NotInvokable => 126
    case _ => -1
  }

  /** One turn of the loop of `start`. */
  function Turn(m: Monitor, r: Round): (Monitor, Outcome) {
    var m := m.(restartCount := m.restartCount + 1);
    if !r.logOk then (m, LoggingFailed)
    else
      var m := Requests(m, r.before);
      var m := Requests(m.(trace := m.trace + [Started]), r.during);
      if r.exit.error != NoError && m.restartCount == 0 then
        (m.(exitCode := StartExitCode(r.exit.error)), CannotStart(r.exit.error))
      else AfterRun(m.(trace := m.trace + [Ended(r.exit.seconds)]), r)
  }

  function AfterRun(m: Monitor, r: Round): (Monitor, Outcome) {
    var m := ResetMonitor(m, r.exit.error == NoError && r.exit.exitCode == 0, r.exit.seconds);
    var (again, m) := ShouldRestart(m, r.exit.exitCode, r.shuttingDown);
    if again then BeforeRestart(m, r) else (m, Over(r.exit.error))
  }

  /** The wait before a restart, and the check that follows it. */
  function BeforeRestart(m: Monitor, r: Round): (Monitor, Outcome) {
    var m := Requests(m.(trace := m.trace + [Waited(Delay(m))]), r.waiting);
    (m, if m.shouldStop then Over(r.exit.error) else Going)
  }

  /** The loop, up to the end of the script or of the monitor. */
  function Run(m: Monitor, script: seq<Round>): (Monitor, Outcome)
    decreases |script|
  {
    if script == [] then (m, Going)
    else
      var (n, out) := Turn(m, script[0]);
      if out.Going? then Run(n, script[1..]) else (n, out)
  }

  // ----- Reading a trace -----

  function Starts(trace: seq<Event>): nat {
    if trace == [] then 0
    else Starts(trace[..|trace| - 1]) + if trace[|trace| - 1].Started? then 1 else 0
  }

  predicate Stopped(trace: seq<Event>) {
    StopRequested in trace
  }

  /** Runs started after the first request to stop. */
  function StartsAfterStop(trace: seq<Event>): nat {
    if trace == [] then 0
    else
      var before := trace[..|trace| - 1];
      StartsAfterStop(before) + if trace[|trace| - 1].Started? && Stopped(before) then 1 else 0
  }

  /** Consecutive runs of 10s or less, up to and including the latest. */
  function ShortRuns(trace: seq<Event>): nat {
    if trace == [] then 0
    else
      var before := ShortRuns(trace[..|trace| - 1]);
      match trace[|trace| - 1]
      case Ended(seconds) => if seconds > 10.0 then 0 else before + 1
      case _ => before
  }

  function Pow2(k: nat): nat {
    if k == 0 then 1 else 2 * Pow2(k - 1)
  }

  /** 100 ms, doubled for each of `k` short runs, in nanoseconds. */
  function Backoff(k: nat): nat {
    100 * Pow2(k) * 1_000_000
  }

  /** Each wait was asked to last as long as the short runs before it call for. */
  ghost predicate Waits(trace: seq<Event>) {
    trace == [] ||
    var before, last := trace[..|trace| - 1], trace[|trace| - 1];
    Waits(before) && (last.Waited? ==> last.nanoseconds == Wrap64(Backoff(ShortRuns(before))))
  }

  lemma {:induction false} WaitsAt(trace: seq<Event>, i: nat)
    requires Waits(trace) && i < |trace| && trace[i].Waited?
    ensures trace[i].nanoseconds == Wrap64(Backoff(ShortRuns(trace[..i])))
  {
    if i < |trace| - 1 {
      var before := trace[..|trace| - 1];
      WaitsAt(before, i);
      assert before[..i] == trace[..i];
    }
  }

  lemma SnocCounts(trace: seq<Event>, e: Event)
    ensures (trace + [e])[..|trace + [e]| - 1] == trace
    ensures Starts(trace + [e]) == Starts(trace) + if e.Started? then 1 else 0
    ensures Stopped(trace + [e]) <==> Stopped(trace) || e == StopRequested
    ensures StartsAfterStop(trace + [e]) == StartsAfterStop(trace) + if e.Started? && Stopped(trace) then 1 else 0
    ensures ShortRuns(trace + [e])
         == if e.Ended? then if e.seconds > 10.0 then 0 else ShortRuns(trace) + 1 else ShortRuns(trace)
  {
    assert (trace + [e])[..|trace|] == trace;
  }

  lemma Snoc(trace: seq<Event>, e: Event)
    ensures (trace + [e])[..|trace + [e]| - 1] == trace
    ensures Starts(trace + [e]) == Starts(trace) + if e.Started? then 1 else 0
    ensures Stopped(trace + [e]) <==> Stopped(trace) || e == StopRequested
    ensures StartsAfterStop(trace + [e]) == StartsAfterStop(trace) + if e.Started? && Stopped(trace) then 1 else 0
    ensures ShortRuns(trace + [e])
         == if e.Ended? then if e.seconds > 10.0 then 0 else ShortRuns(trace) + 1 else ShortRuns(trace)
    ensures Waits(trace + [e])
       <==> Waits(trace) && (e.Waited? ==> e.nanoseconds == Wrap64(Backoff(ShortRuns(trace))))
  {
    SnocCounts(trace, e);
  }

  // ----- The invariant -----

  /** What is so at any point of the loop. */
  ghost predicate Sane(m: Monitor) {
    && Starts(m.trace) <= m.restartCount + 1
    && (m.shouldStop <==> Stopped(m.trace)) && m.stopCloses == (if m.shouldStop then 1 else 0)
    && m.timeIncrement == Wrap64(DEFAULT_TIME_INCREMENT * Pow2(ShortRuns(m.trace)))
    && Waits(m.trace)
  }

  /** What is so at the head of the loop: nobody has asked to stop yet, and under on-failure every run
      so far has failed. */
  ghost predicate AtHead(m: Monitor) {
    && Sane(m) && !m.shouldStop && StartsAfterStop(m.trace) == 0
    && Starts(m.trace) == m.restartCount + 1
    && (m.policy.OnFailure? ==>
          && m.failureCount == Starts(m.trace)
          && (m.policy.max != 0 ==> m.failureCount == 0 || m.failureCount <= m.policy.max))
  }

  /** Doubling and converting commute with wrapping around. */
  lemma WrapTimes(x: int, c: int)
    ensures Wrap64(Wrap64(x) * c) == Wrap64(x * c)
  {
    var q := (x + 0x8000_0000_0000_0000) / 0x1_0000_0000_0000_0000;
    assert Wrap64(x) == x - q * 0x1_0000_0000_0000_0000;
    assert Wrap64(x) * c == x * c - q * c * 0x1_0000_0000_0000_0000;
    WrapShift(x * c, -(q * c));
  }

  lemma WrapShift(x: int, n: int)
    ensures Wrap64(x + n * 0x1_0000_0000_0000_0000) == Wrap64(x)
  {
  }

  lemma ExitOnNextSane(m: Monitor)
    requires Sane(m)
    ensures var n := ExitOnNext(m);
      && Sane(n) && n.shouldStop && n == m.(shouldStop := true, stopCloses := n.stopCloses, trace := n.trace)
      && Starts(n.trace) == Starts(m.trace) && StartsAfterStop(n.trace) == StartsAfterStop(m.trace)
      && ShortRuns(n.trace) == ShortRuns(m.trace)
  {
    Snoc(m.trace, StopRequested);
  }

  lemma {:induction false} RequestsSane(m: Monitor, n: nat)
    requires Sane(m)
    ensures var t := Requests(m, n);
      && Sane(t) && (t.shouldStop <==> m.shouldStop || n > 0)
      && t == m.(shouldStop := t.shouldStop, stopCloses := t.stopCloses, trace := t.trace)
      && Starts(t.trace) == Starts(m.trace) && StartsAfterStop(t.trace) == StartsAfterStop(m.trace)
      && ShortRuns(t.trace) == ShortRuns(m.trace)
  {
    if n > 0 {
      RequestsSane(m, n - 1);
      ExitOnNextSane(Requests(m, n - 1));
    }
  }

  /** After the process has ended the delay is the one the runs so far call for. */
  lemma ResetSane(m: Monitor, successful: bool, seconds: real)
    requires Sane(m)
    ensures var n := ResetMonitor(m.(trace := m.trace + [Ended(seconds)]), successful, seconds);
      && Sane(n) && Starts(n.trace) == Starts(m.trace) && StartsAfterStop(n.trace) == StartsAfterStop(m.trace)
      && n.shouldStop == m.shouldStop
  {
    Snoc(m.trace, Ended(seconds));
    WrapTimes(DEFAULT_TIME_INCREMENT * Pow2(ShortRuns(m.trace)), 2);
  }

  lemma WaitSane(m: Monitor)
    requires Sane(m)
    ensures var n := m.(trace := m.trace + [Waited(Delay(m))]);
      && Sane(n) && Starts(n.trace) == Starts(m.trace) && StartsAfterStop(n.trace) == StartsAfterStop(m.trace)
  {
    Snoc(m.trace, Waited(Delay(m)));
    WrapTimes(DEFAULT_TIME_INCREMENT * Pow2(ShortRuns(m.trace)), 1_000_000);
  }

  /** What one more turn may do to the number of runs. */
  ghost predicate Bounded(m: Monitor) {
    && Sane(m) && StartsAfterStop(m.trace) <= 1
    && (m.policy.OnFailure? && m.policy.max > 0 ==> Starts(m.trace) <= m.policy.max + 1)
  }

  /** The process has ended: the monitor that decides whether to restart it. */
  function Reset(m: Monitor, r: Round): Monitor {
    ResetMonitor(m.(trace := m.trace + [Ended(r.exit.seconds)]), r.exit.error == NoError && r.exit.exitCode == 0,
                 r.exit.seconds)
  }

  /** Under on-failure a restart means that this run failed too, and that the maximum is not passed. */
  lemma RestartMeansFailure(m: Monitor, r: Round)
    requires m.policy.OnFailure? && ShouldRestart(Reset(m, r), r.exit.exitCode, r.shuttingDown).0
    ensures Reset(m, r).failureCount == m.failureCount + 1
    ensures m.policy.max != 0 ==> m.failureCount + 1 <= m.policy.max
  {
  }

  /** Where the monitor stands when the process has ended, before anything is decided. */
  ghost predicate RanOnce(m: Monitor) {
    && Sane(m) && Starts(m.trace) == m.restartCount + 1
    && StartsAfterStop(m.trace) <= (if m.shouldStop then 1 else 0)
    && (m.policy.OnFailure? ==> m.failureCount == Starts(m.trace) - 1)
  }

  /** Whether this is `m` with some more events that start nothing. */
  ghost predicate SameStarts(m: Monitor, n: Monitor) {
    && n.policy == m.policy && n.restartCount == m.restartCount
    && Starts(n.trace) == Starts(m.trace) && StartsAfterStop(n.trace) == StartsAfterStop(m.trace)
  }

  lemma ResetStarts(m: Monitor, r: Round)
    requires Sane(m)
    ensures Sane(Reset(m, r)) && SameStarts(m, Reset(m, r)) && Reset(m, r).shouldStop == m.shouldStop
  {
    ResetSane(m, r.exit.error == NoError && r.exit.exitCode == 0, r.exit.seconds);
  }

  /** A restart is decided at what is the head of the loop again. */
  lemma RestartAtHead(m: Monitor, r: Round)
    requires RanOnce(m) && ShouldRestart(Reset(m, r), r.exit.exitCode, r.shuttingDown).0
    ensures AtHead(Reset(m, r)) && ShouldRestart(Reset(m, r), r.exit.exitCode, r.shuttingDown).1 == Reset(m, r)
  {
    ResetStarts(m, r);
    if m.policy.OnFailure? {
      RestartMeansFailure(m, r);
    }
  }

  /** No restart: only the flag for a manual stop may change. */
  lemma NoRestartSane(a: Monitor, r: Round)
    requires Sane(a) && !ShouldRestart(a, r.exit.exitCode, r.shuttingDown).0
    ensures var b := ShouldRestart(a, r.exit.exitCode, r.shuttingDown).1; Sane(b) && SameStarts(a, b)
  {
  }

  lemma AfterRunSane(m: Monitor, r: Round)
    requires RanOnce(m)
    ensures var (n, out) := AfterRun(m.(trace := m.trace + [Ended(r.exit.seconds)]), r);
      Sane(n) && SameStarts(m, n) && (out.Going? ==> AtHead(n))
  {
    var a := Reset(m, r);
    ResetStarts(m, r);
    AfterRunCases(m, r);
    if ShouldRestart(a, r.exit.exitCode, r.shuttingDown).0 {
      RestartAtHead(m, r);
      BeforeRestartSane(a, r);
    } else {
      NoRestartSane(a, r);
    }
  }

  lemma AfterRunCases(m: Monitor, r: Round)
    ensures var a := Reset(m, r);
      var (again, b) := ShouldRestart(a, r.exit.exitCode, r.shuttingDown);
      AfterRun(m.(trace := m.trace + [Ended(r.exit.seconds)]), r)
        == if again then BeforeRestart(b, r) else (b, Over(r.exit.error))
  {
  }

  lemma BeforeRestartSane(m: Monitor, r: Round)
    requires AtHead(m)
    ensures var (n, out) := BeforeRestart(m, r);
      Sane(n) && SameStarts(m, n) && (out.Going? ==> AtHead(n))
  {
    WaitSane(m);
    RequestsSane(m.(trace := m.trace + [Waited(Delay(m))]), r.waiting);
  }

  /** The monitor while the process runs, up to the point where it ends. */
  function Running(m: Monitor, r: Round): Monitor {
    var m := Requests(m.(restartCount := m.restartCount + 1), r.before);
    Requests(m.(trace := m.trace + [Started]), r.during)
  }

  lemma RunningSane(m: Monitor, r: Round)
    requires AtHead(m)
    ensures var d := Running(m, r);
      RanOnce(d) && Starts(d.trace) == Starts(m.trace) + 1 && d.policy == m.policy
  {
    var a := m.(restartCount := m.restartCount + 1);
    RequestsSane(a, r.before);
    var b := Requests(a, r.before);
    StartedSane(b);
    RequestsSane(b.(trace := b.trace + [Started]), r.during);
  }

  /** The process is started. */
  lemma StartedSane(m: Monitor)
    requires Sane(m) && Starts(m.trace) <= m.restartCount
    ensures var n := m.(trace := m.trace + [Started]);
      && Sane(n) && Starts(n.trace) == Starts(m.trace) + 1
      && StartsAfterStop(n.trace) == StartsAfterStop(m.trace) + if m.shouldStop then 1 else 0
  {
    Snoc(m.trace, Started);
  }

  lemma TurnSane(m: Monitor, r: Round)
    requires AtHead(m)
    ensures var (n, out) := Turn(m, r); Bounded(n) && n.policy == m.policy && (out.Going? ==> AtHead(n))
  {
    if r.logOk {
      RunningSane(m, r);
      var d := Running(m, r);
      if !(r.exit.error != NoError && d.restartCount == 0) {
        AfterRunSane(d, r);
      }
    }
  }

  lemma {:induction false} RunSane(m: Monitor, script: seq<Round>)
    requires AtHead(m)
    ensures var (n, out) := Run(m, script); Bounded(n) && n.policy == m.policy && (out.Going? ==> AtHead(n))
    decreases |script|
  {
    if script != [] {
      TurnSane(m, script[0]);
      var (n, out) := Turn(m, script[0]);
      if out.Going? {
        RunSane(n, script[1..]);
      }
    }
  }

  // ----- The promises -----

  lemma NewAtHead(policy: Policy)
    ensures AtHead(New(policy))
  {
  }

  /** Under on-failure with a maximum n > 0 the process is run at most n + 1 times, whatever happens. */
  lemma OnFailureIsBounded(max: int, script: seq<Round>)
    requires max > 0
    ensures Starts(Run(New(OnFailure(max)), script).0.trace) <= max + 1
  {
    NewAtHead(OnFailure(max));
    RunSane(New(OnFailure(max)), script);
  }

  /** A process that keeps failing and nobody stops. */
  predicate Failing(script: seq<Round>) {
    forall i :: 0 <= i < |script| ==>
      script[i].logOk && script[i].before == script[i].during == script[i].waiting == 0 &&
      script[i].exit.exitCode != 0 && script[i].exit.error == NoError
  }

  /** The bound is met: a process that keeps failing is run exactly n + 1 times, if there is time for it. */
  lemma {:induction false} OnFailureBoundIsMet(m: Monitor, script: seq<Round>)
    requires AtHead(m) && m.policy.OnFailure? && m.policy.max > 0 && Failing(script)
    ensures Starts(Run(m, script).0.trace)
         == if Starts(m.trace) + |script| <= m.policy.max + 1 then Starts(m.trace) + |script| else m.policy.max + 1
    decreases |script|
  {
    if script != [] {
      var (n, out) := Turn(m, script[0]);
      TurnSane(m, script[0]);
      FailingTurn(m, script[0]);
      if out.Going? {
        OnFailureBoundIsMet(n, script[1..]);
      }
    }
  }

  lemma FailingTurn(m: Monitor, r: Round)
    requires AtHead(m) && m.policy.OnFailure? && m.policy.max > 0 && Failing([r])
    ensures var (n, out) := Turn(m, r);
      Starts(n.trace) == Starts(m.trace) + 1 && (out.Going? <==> Starts(n.trace) <= m.policy.max)
  {
    assert [r][0] == r;
    var a := m.(restartCount := m.restartCount + 1);
    Snoc(a.trace, Started);
    var d := a.(trace := a.trace + [Started]);
    assert Turn(m, r) == AfterRun(d.(trace := d.trace + [Ended(r.exit.seconds)]), r);
    AfterRunSane(d, r);
    FailingAfterRun(d.(trace := d.trace + [Ended(r.exit.seconds)]), r);
  }

  lemma FailingAfterRun(m: Monitor, r: Round)
    requires m.policy.OnFailure? && m.policy.max > 0 && !m.shouldStop && r.exit.exitCode != 0 && r.waiting == 0
    ensures AfterRun(m, r).1.Going? <==> m.failureCount + 1 <= m.policy.max
  {
  }

  /** Wherever requests to stop land, at most one run starts after the first, and stopChan is closed
      once if there was a request and not at all otherwise. */
  lemma StopIsHeeded(policy: Policy, script: seq<Round>)
    ensures var m := Run(New(policy), script).0;
      StartsAfterStop(m.trace) <= 1 && m.stopCloses == if Stopped(m.trace) then 1 else 0
  {
    NewAtHead(policy);
    RunSane(New(policy), script);
  }

  lemma {:induction false} Pow2Monotone(j: nat, k: nat)
    requires j <= k
    ensures Pow2(j) <= Pow2(k)
    decreases k
  {
    if j < k {
      Pow2Monotone(j, k - 1);
    }
  }

  lemma Pow2Values()
    ensures Pow2(12) == 4096 && Pow2(24) == 0x100_0000 && Pow2(36) == 0x10_0000_0000 && Pow2(37) == 0x20_0000_0000
  {
    assert Pow2(12) == 4096;
    assert Pow2(18) == 64 * Pow2(12);
    assert Pow2(24) == 64 * Pow2(18);
    assert Pow2(30) == 64 * Pow2(24);
    assert Pow2(36) == 64 * Pow2(30);
  }

  /** A delay fits into 64 bits up to 36 short runs in a row, and not beyond. */
  lemma BackoffFits(k: nat)
    ensures Wrap64(Backoff(k)) == Backoff(k) <==> k <= 36
  {
    Pow2Values();
    if k <= 36 {
      Pow2Monotone(k, 36);
    } else {
      Pow2Monotone(37, k);
    }
  }

  /** Each wait is asked to last 100·2^k ms, k counting the short runs in a row before it; this is the
      value passed to the timer exactly as long as k is at most 36, after that 64 bits overflow. */
  lemma DelaysDouble(policy: Policy, script: seq<Round>, i: nat)
    requires i < |Run(New(policy), script).0.trace| && Run(New(policy), script).0.trace[i].Waited?
    ensures var trace := Run(New(policy), script).0.trace;
            trace[i].nanoseconds == Backoff(ShortRuns(trace[..i])) <==> ShortRuns(trace[..i]) <= 36
  {
    NewAtHead(policy);
    RunSane(New(policy), script);
    WaitsAt(Run(New(policy), script).0.trace, i);
    BackoffFits(ShortRuns(Run(New(policy), script).0.trace[..i]));
  }

  /** A process that ends at once, again and again, and nobody stops. */
  function Quick(n: nat): seq<Round> {
    seq(n, _ => Round(true, 0, Exit(NoError, 1, 0.0), 0, false, 0))
  }

  lemma QuickEvents(m: Monitor)
    requires AtHead(m) && m.policy.Always?
    ensures var ended := m.trace + [Started] + [Ended(0.0)];
      Turn(m, Quick(1)[0]).0.trace == ended + [Waited(Wrap64(Backoff(ShortRuns(ended))))]
  {
    var r := Quick(1)[0];
    TurnAnswers(m, r);
    TurnEvents(m, r);
    assert RanTrace(r) == [Started] && Stops(0) == [];
    var ended := m.trace + [Started] + [Ended(0.0)];
    assert [Waited(Wrap64(Backoff(ShortRuns(ended))))] + [] == [Waited(Wrap64(Backoff(ShortRuns(ended))))];
  }

  lemma QuickCounts(trace: seq<Event>, w: Event)
    requires w.Waited?
    ensures ShortRuns(trace + [Started] + [Ended(0.0)]) == ShortRuns(trace) + 1
    ensures ShortRuns(trace + [Started] + [Ended(0.0)] + [w]) == ShortRuns(trace) + 1
  {
    SnocCounts(trace, Started);
    SnocCounts(trace + [Started], Ended(0.0));
    SnocCounts(trace + [Started] + [Ended(0.0)], w);
  }

  lemma QuickTurn(m: Monitor)
    requires AtHead(m) && m.policy.Always?
    ensures var r := Quick(1)[0];
      var n := Turn(m, r).0;
      && Turn(m, r).1.Going? && AtHead(n) && n.policy == m.policy && ShortRuns(n.trace) == ShortRuns(m.trace) + 1
      && n.trace == m.trace + [Started] + [Ended(0.0)] + [Waited(Wrap64(Backoff(ShortRuns(m.trace) + 1)))]
  {
    TurnGoesOn(m, Quick(1)[0]);
    QuickEvents(m);
    QuickCounts(m.trace, Waited(Wrap64(Backoff(ShortRuns(m.trace) + 1))));
  }

  lemma {:induction false} QuickRuns(m: Monitor, n: nat)
    requires AtHead(m) && m.policy.Always? && n > 0
    ensures var t := Run(m, Quick(n)).0.trace;
      && |t| > |m.trace| && t[|t| - 1].Waited? && t[|t| - 1].nanoseconds == Wrap64(Backoff(ShortRuns(m.trace) + n))
      && ShortRuns(t[..|t| - 1]) == ShortRuns(m.trace) + n
    decreases n
  {
    QuickTurn(m);
    var next := Turn(m, Quick(1)[0]).0;
    assert Quick(n)[0] == Quick(1)[0] && Quick(n)[1..] == Quick(n - 1);
    if n > 1 {
      QuickRuns(next, n - 1);
    } else {
      var t := next.trace;
      assert t[..|t| - 1] == m.trace + [Started] + [Ended(0.0)];
      Snoc(t[..|t| - 1], t[|t| - 1]);
      assert Run(next, []) == (next, Going);
    }
  }

  /** The overflow can be reached, if only after 37 short runs in a row: the waits before that add up to
      some 436 years. */
  lemma BackoffOverflows()
    ensures var t := Run(New(Always), Quick(37)).0.trace;
      t != [] && t[|t| - 1].Waited? && t[|t| - 1].nanoseconds != Backoff(ShortRuns(t[..|t| - 1]))
  {
    NewAtHead(Always);
    QuickRuns(New(Always), 37);
    BackoffFits(37);
  }

  /** Under always and unless-stopped the monitor ends only when asked to, or when the logging or the very
      first start fails. */
  lemma {:induction false} AlwaysGoesOn(m: Monitor, script: seq<Round>)
    requires AtHead(m) && (m.policy.Always? || m.policy.UnlessStopped?)
    ensures var (n, out) := Run(m, script); out.Over? ==> Stopped(n.trace)
    decreases |script|
  {
    if script != [] {
      TurnSane(m, script[0]);
      TurnAlways(m, script[0]);
      var (n, out) := Turn(m, script[0]);
      if out.Going? {
        AlwaysGoesOn(n, script[1..]);
      }
    }
  }

  lemma TurnAlways(m: Monitor, r: Round)
    requires AtHead(m) && (m.policy.Always? || m.policy.UnlessStopped?)
    ensures Turn(m, r).1.Over? ==> Turn(m, r).0.shouldStop
  {
    if r.logOk {
      RunningSane(m, r);
    }
  }

  // ----- What follows a run -----

  /** Whether the policy calls for another run after one that ended with an exit code, the process having been run
      `runs` times: always under always and unless-stopped, never under no, and under on-failure after a failure,
      until there have been more runs than the maximum, if there is one. */
  predicate Again(policy: Policy, exitCode: int, runs: nat) {
    match policy
    case No => false
    case Always => true
    case UnlessStopped => true
    case OnFailure(max) => exitCode != 0 && (max == 0 || runs <= max)
  }

  /** The round is followed by another: the process ran, nobody asked to stop, and the policy calls for another run.
      `runs` is the number of runs before it; the very first one must not fail to start. */
  predicate GoesOn(policy: Policy, r: Round, runs: nat) {
    && r.logOk && r.before == r.during == r.waiting == 0 && (runs == 0 ==> r.exit.error == NoError)
    && Again(policy, r.exit.exitCode, runs + 1)
  }

  function Stops(n: nat): seq<Event> {
    if n == 0 then [] else Stops(n - 1) + [StopRequested]
  }

  lemma {:induction false} RequestsTrace(m: Monitor, n: nat)
    ensures var t := Requests(m, n);
      && t.trace == m.trace + Stops(n) && (t.shouldStop <==> m.shouldStop || n > 0)
      && t == m.(shouldStop := t.shouldStop, stopCloses := t.stopCloses, trace := t.trace)
  {
    if n > 0 {
      RequestsTrace(m, n - 1);
      assert m.trace + Stops(n - 1) + [StopRequested] == m.trace + Stops(n);
    } else {
      assert m.trace + [] == m.trace;
    }
  }

  /** The trace of a run of the process, up to its end. */
  function RanTrace(r: Round): seq<Event> {
    Stops(r.before) + [Started] + Stops(r.during)
  }

  lemma RunningTrace(m: Monitor, r: Round)
    ensures var d := Running(m, r);
      && d.trace == m.trace + RanTrace(r) && (d.shouldStop <==> m.shouldStop || r.before + r.during > 0)
      && d == m.(restartCount := m.restartCount + 1, shouldStop := d.shouldStop, stopCloses := d.stopCloses,
                 trace := d.trace)
  {
    var a := m.(restartCount := m.restartCount + 1);
    RequestsTrace(a, r.before);
    var b := Requests(a, r.before);
    RequestsTrace(b.(trace := b.trace + [Started]), r.during);
    assert m.trace + Stops(r.before) + [Started] + Stops(r.during) == m.trace + RanTrace(r);
  }

  /** What is decided once the process has ended. */
  lemma AfterRunAnswers(m: Monitor, r: Round)
    requires RanOnce(m)
    ensures var (n, out) := AfterRun(m.(trace := m.trace + [Ended(r.exit.seconds)]), r);
      var waits := !m.shouldStop && Again(m.policy, r.exit.exitCode, Starts(m.trace));
      && out == (if waits && r.waiting == 0 then Going else Over(r.exit.error))
      && n.manuallyStopped == (if m.shouldStop then !r.shuttingDown else m.manuallyStopped)
      && n.exitCode == m.exitCode && n.restartCount == m.restartCount
      && n.failureCount == (if r.exit.error == NoError && r.exit.exitCode == 0 then 0 else m.failureCount + 1)
      && n.trace == m.trace + [Ended(r.exit.seconds)]
           + if waits then [Waited(Delay(Reset(m, r)))] + Stops(r.waiting) else []
  {
    var a := Reset(m, r);
    AfterRunCases(m, r);
    var (again, b) := ShouldRestart(a, r.exit.exitCode, r.shuttingDown);
    RestartIff(m, r);
    var ended := m.trace + [Ended(r.exit.seconds)];
    assert ended + [] == ended;
    if again {
      RequestsTrace(b.(trace := b.trace + [Waited(Delay(b))]), r.waiting);
      assert ended + [Waited(Delay(b))] + Stops(r.waiting) == ended + ([Waited(Delay(b))] + Stops(r.waiting));
    }
  }

  lemma RestartIff(m: Monitor, r: Round)
    requires RanOnce(m)
    ensures var a := Reset(m, r);
      var (again, b) := ShouldRestart(a, r.exit.exitCode, r.shuttingDown);
      && (again <==> !m.shouldStop && Again(m.policy, r.exit.exitCode, Starts(m.trace)))
      && b == a.(manuallyStopped := if m.shouldStop then !r.shuttingDown else m.manuallyStopped)
  {
  }

  /** What one turn of the loop does, told by the round and the runs before it: when it fails and how, when it goes on,
      when it is over, and every event in between. */
  lemma TurnAnswers(m: Monitor, r: Round)
    requires AtHead(m)
    ensures var (n, out) := Turn(m, r);
      var first, runs := Starts(m.trace) == 0, Starts(m.trace);
      && (out.LoggingFailed? <==> !r.logOk)
      && (out.CannotStart? <==> r.logOk && first && r.exit.error != NoError)
      && (out.CannotStart? ==>
            && out.error == r.exit.error
            && n.exitCode == (if r.exit.error.NotFound? then 127 else if r.exit.error.NotInvokable? then 126 else -1))
      && (out.Going? <==> GoesOn(m.policy, r, runs))
      && (out.Over? ==> out.error == r.exit.error)
      && n.restartCount == m.restartCount + 1
      && (out.Going? || out.Over? ==>
            && n.exitCode == m.exitCode
            && n.failureCount == (if r.exit.error == NoError && r.exit.exitCode == 0 then 0 else m.failureCount + 1))
  {
    if r.logOk {
      RunningSane(m, r);
      RunningTrace(m, r);
      var d := Running(m, r);
      if !(r.exit.error != NoError && d.restartCount == 0) {
        AfterRunAnswers(d, r);
      }
    }
  }

  /** The events of one turn: requests to stop and the run of the process, and, if it is to be run again, the wait. */
  lemma TurnEvents(m: Monitor, r: Round)
    requires AtHead(m)
    ensures var (n, out) := Turn(m, r);
      var ran := m.trace + RanTrace(r);
      var ended := ran + [Ended(r.exit.seconds)];
      var stopped := r.before + r.during > 0;
      && (!r.logOk ==> n.trace == m.trace && n.manuallyStopped == m.manuallyStopped)
      && (out.CannotStart? ==> n.trace == ran && n.manuallyStopped == m.manuallyStopped)
      && (out.Over? || out.Going? ==>
            && n.manuallyStopped == (if stopped then !r.shuttingDown else m.manuallyStopped)
            && n.trace == ended +
                 if !stopped && Again(m.policy, r.exit.exitCode, Starts(m.trace) + 1)
                 then [Waited(Wrap64(Backoff(ShortRuns(ended))))] + Stops(r.waiting) else [])
  {
    if r.logOk {
      RunningSane(m, r);
      RunningTrace(m, r);
      var d := Running(m, r);
      if !(r.exit.error != NoError && d.restartCount == 0) {
        AfterRunAnswers(d, r);
        ResetStarts(d, r);
        WrapTimes(100 * Pow2(ShortRuns(Reset(d, r).trace)), 1_000_000);
      }
    }
  }

  /** The first `k` rounds of a script all go on, after `runs` runs. */
  ghost predicate AllGoOn(policy: Policy, script: seq<Round>, runs: nat, k: nat)
    requires k <= |script|
  {
    forall i: nat :: i < k ==> GoesOn(policy, script[i], runs + i)
  }

  lemma AllGoOnCons(policy: Policy, script: seq<Round>, runs: nat, k: nat)
    requires 0 < k <= |script|
    ensures AllGoOn(policy, script, runs, k)
       <==> GoesOn(policy, script[0], runs) && AllGoOn(policy, script[1..], runs + 1, k - 1)
  {
    var rest := script[1..];
    if AllGoOn(policy, script, runs, k) {
      assert GoesOn(policy, script[0], runs + 0);
      forall i: nat | i < k - 1 ensures GoesOn(policy, rest[i], runs + 1 + i) {
        assert GoesOn(policy, script[i + 1], runs + (i + 1));
      }
    }
    if GoesOn(policy, script[0], runs) && AllGoOn(policy, rest, runs + 1, k - 1) {
      forall i: nat | i < k ensures GoesOn(policy, script[i], runs + i) {
        assert i > 0 ==> GoesOn(policy, rest[i - 1], runs + 1 + (i - 1));
      }
    }
  }

  lemma TurnStarts(m: Monitor, r: Round)
    requires AtHead(m)
    ensures Starts(Turn(m, r).0.trace) == Starts(m.trace) + if r.logOk then 1 else 0
  {
    if r.logOk {
      RunningSane(m, r);
      var d := Running(m, r);
      if !(r.exit.error != NoError && d.restartCount == 0) {
        AfterRunSane(d, r);
      }
    }
  }

  lemma TurnGoesOn(m: Monitor, r: Round)
    requires AtHead(m)
    ensures var (n, out) := Turn(m, r);
      && (out.Going? <==> GoesOn(m.policy, r, Starts(m.trace)))
      && (out.Going? ==> AtHead(n) && n.policy == m.policy)
      && Starts(n.trace) == Starts(m.trace) + if r.logOk then 1 else 0
  {
    TurnSane(m, r);
    TurnAnswers(m, r);
    TurnStarts(m, r);
  }

  /** The number of runs a script leads to, after `runs` of them. */
  function RunsOf(policy: Policy, script: seq<Round>, runs: nat): nat
    decreases |script|
  {
    if script == [] then 0
    else
      (if script[0].logOk then 1 else 0)
      + if GoesOn(policy, script[0], runs) then RunsOf(policy, script[1..], runs + 1) else 0
  }

  predicate StillGoing(policy: Policy, script: seq<Round>, runs: nat)
    decreases |script|
  {
    script == [] || (GoesOn(policy, script[0], runs) && StillGoing(policy, script[1..], runs + 1))
  }

  /** Over every script and from every head of the loop, the runs and the outcome can be read off the rounds. */
  lemma {:induction false} RoundsTell(m: Monitor, script: seq<Round>)
    requires AtHead(m)
    ensures Starts(Run(m, script).0.trace) == Starts(m.trace) + RunsOf(m.policy, script, Starts(m.trace))
    ensures Run(m, script).1.Going? <==> StillGoing(m.policy, script, Starts(m.trace))
    decreases |script|
  {
    if script != [] {
      TurnGoesOn(m, script[0]);
      var (n, out) := Turn(m, script[0]);
      if out.Going? {
        assert Run(m, script) == Run(n, script[1..]);
        RoundsTell(n, script[1..]);
      } else {
        assert Run(m, script) == (n, out);
      }
    }
  }

  lemma {:induction false} StillGoingIff(policy: Policy, script: seq<Round>, runs: nat)
    ensures StillGoing(policy, script, runs) <==> AllGoOn(policy, script, runs, |script|)
    decreases |script|
  {
    if script != [] {
      AllGoOnCons(policy, script, runs, |script|);
      StillGoingIff(policy, script[1..], runs + 1);
    }
  }

  /** After `k` rounds the process is run once more exactly if all of them go on and the logging can be started. */
  lemma {:induction false} RunsOfIff(policy: Policy, script: seq<Round>, runs: nat, k: nat)
    requires k < |script|
    ensures RunsOf(policy, script, runs) > k <==> script[k].logOk && AllGoOn(policy, script, runs, k)
    decreases k
  {
    if k > 0 {
      AllGoOnCons(policy, script, runs, k);
      RunsOfIff(policy, script[1..], runs + 1, k - 1);
    }
  }

  /** A new monitor runs the process once more after `k` rounds exactly if the logging can be started and each of the
      `k` rounds went on: it ran, nobody asked to stop, and the policy calls for another run. */
  lemma RunsAgainIff(policy: Policy, script: seq<Round>, k: nat)
    requires k < |script|
    ensures Starts(Run(New(policy), script).0.trace) > k
       <==> script[k].logOk && forall i: nat :: i < k ==> GoesOn(policy, script[i], i)
    ensures Run(New(policy), script).1.Going? <==> forall i: nat :: i < |script| ==> GoesOn(policy, script[i], i)
  {
    NewAtHead(policy);
    RoundsTell(New(policy), script);
    RunsOfIff(policy, script, 0, k);
    StillGoingIff(policy, script, 0);
    AllGoOnFromNew(policy, script, k);
    AllGoOnFromNew(policy, script, |script|);
  }

  lemma AllGoOnFromNew(policy: Policy, script: seq<Round>, k: nat)
    requires k <= |script|
    ensures AllGoOn(policy, script, 0, k) <==> forall i: nat :: i < k ==> GoesOn(policy, script[i], i)
  {
    if AllGoOn(policy, script, 0, k) {
      forall i: nat | i < k ensures GoesOn(policy, script[i], i) {
        assert GoesOn(policy, script[i], 0 + i);
      }
    }
  }

  /** Under no the process is run once at most, and after a round the monitor is not going any more. */
  lemma NoRunsOnce(script: seq<Round>)
    ensures Starts(Run(New(No), script).0.trace) <= 1
    ensures script != [] ==> !Run(New(No), script).1.Going?
  {
    NewAtHead(No);
    if script != [] {
      TurnAnswers(New(No), script[0]);
      TurnStarts(New(No), script[0]);
    }
  }
}
