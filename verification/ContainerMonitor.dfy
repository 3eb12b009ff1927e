/**
 The container monitor as the object it is; `Start` is its loop.
 */
module ContainerMonitor {
  import opened MonitorRuns
  import Steps = MonitorRuns

  class ContainerMonitor {
    const policy: Policy
    var failureCount: nat
    var shouldStop: bool
    var stopCloses: nat
    var timeIncrement: int
    var restartCount: int
    var manuallyStopped: bool
    var exitCode: int
    var trace: seq<Event>

    ghost function View(): Monitor
      reads this
    {
      Monitor(policy, failureCount, shouldStop, stopCloses, timeIncrement, restartCount, manuallyStopped, exitCode,
              trace)
    }

    /** `StartMonitor`, before the loop is entered. */
    constructor (policy: Policy)
      ensures View() == New(policy)
    {
      this.policy := policy;
      failureCount, shouldStop, stopCloses := 0, false, 0;
      timeIncrement, restartCount := DEFAULT_TIME_INCREMENT, -1;
      manuallyStopped, exitCode, trace := false, 0, [];
    }

    /** A request to stop; the channel is closed by the first one only. */
    method ExitOnNext()
      modifies this
      ensures View() == Steps.ExitOnNext(old(View()))
    {
      trace := trace + [StopRequested];
      if !shouldStop {
        shouldStop := true;
        stopCloses := stopCloses + 1;
      }
    }

    /** The environment sends `n` requests to stop. */
    method Requests(n: nat)
      modifies this
      ensures View() == Steps.Requests(old(View()), n)
    {
      for i := 0 to n
        invariant View() == Steps.Requests(old(View()), i)
      {
        ExitOnNext();
      }
    }

    method ResetMonitor(successful: bool, seconds: real)
      modifies this`timeIncrement, this`failureCount
      ensures View() == Steps.ResetMonitor(old(View()), successful, seconds)
    {
      if seconds > 10.0 {
        timeIncrement := DEFAULT_TIME_INCREMENT;
      } else {
        timeIncrement := Wrap64(timeIncrement * 2);
      }
      if successful {
        failureCount := 0;
      } else {
        failureCount := failureCount + 1;
      }
    }

    method ShouldRestart(code: int, shuttingDown: bool) returns (again: bool)
      modifies this`manuallyStopped
      ensures (again, View()) == Steps.ShouldRestart(old(View()), code, shuttingDown)
      ensures again <==>
        && !shouldStop && !policy.No?
        && (policy.OnFailure? ==> code != 0 && (policy.max == 0 || failureCount <= policy.max))
      ensures manuallyStopped == if shouldStop then !shuttingDown else old(manuallyStopped)
    {
      if shouldStop {
        manuallyStopped := !shuttingDown;
        return false;
      }
      match policy {
        case Always =>
          return true;
        case UnlessStopped =>
          return true;
        case OnFailure(max) =>
          if max != 0 && failureCount > max {
            return false;
          }
          return code != 0;
        case No =>
          return false;
      }
    }

    /** One turn of the loop. */
    method Turn(r: Round) returns (out: Outcome)
      modifies this
      ensures (View(), out) == Steps.Turn(old(View()), r)
    {
      restartCount := restartCount + 1;
      if !r.logOk {
        return LoggingFailed;
      }
      Requests(r.before);
      trace := trace + [Started];
      Requests(r.during);
      if r.exit.error != NoError && restartCount == 0 {
        exitCode := StartExitCode(r.exit.error);
        return CannotStart(r.exit.error);
      }
      trace := trace + [Ended(r.exit.seconds)];
      out := AfterRun(r);
    }

    /** The process has ended: reset, decide, and wait for the restart. */
    method AfterRun(r: Round) returns (out: Outcome)
      modifies this
      ensures (View(), out) == Steps.AfterRun(old(View()), r)
    {
      ResetMonitor(r.exit.error == NoError && r.exit.exitCode == 0, r.exit.seconds);
      var again := ShouldRestart(r.exit.exitCode, r.shuttingDown);
      if !again {
        return Over(r.exit.error);
      }
      trace := trace + [Waited(Wrap64(timeIncrement * 1_000_000))];
      Requests(r.waiting);
      if shouldStop {
        return Over(r.exit.error);
      }
      return Going;
    }

    /** The loop of `start`, for as long as the script goes. */
    method Start(script: seq<Round>) returns (out: Outcome)
      requires View() == New(policy)
      modifies this
      ensures (View(), out) == Run(New(policy), script)
      ensures StartsAfterStop(trace) <= 1 && stopCloses == (if Stopped(trace) then 1 else 0)
      ensures policy.OnFailure? && policy.max > 0 ==> Starts(trace) <= policy.max + 1
      ensures policy.No? ==> Starts(trace) <= 1 && (script != [] ==> !out.Going?)
    {
      NoRunsOnce(script);
      NewAtHead(policy);
      RunSane(New(policy), script);
      var i := 0;
      while i < |script|
        invariant i <= |script| && Run(View(), script[i..]) == Run(New(policy), script)
      {
        out := Turn(script[i]);
        assert script[i..][1..] == script[i + 1..];
        i := i + 1;
        if !out.Going? {
          return;
        }
      }
      return Going;
    }
  }
}
