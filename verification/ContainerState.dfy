/**
 The container state as the object it is.
 */
module ContainerState {
  import opened WaitState
  import Steps = WaitState

  class ContainerState {
    var running: bool
    var paused: bool
    var restarting: bool
    var dead: bool
    var pid: int
    var exitCode: int
    var error: string
    var started: bool
    var waitChan: Chan
    var nextChan: Chan
    ghost var closes: seq<Chan>

    ghost function View(): State
      reads this
    {
      State(running, paused, restarting, dead, pid, exitCode, error, started, waitChan, nextChan, closes)
    }

    ghost predicate Valid()
      reads this
    {
      Channels(View()) && Flags(View())
    }

    constructor ()
      ensures Valid() && View() == NewState()
    {
      running, paused, restarting, dead, started := false, false, false, false, false;
      pid, exitCode, error := 0, 0, "";
      waitChan, nextChan, closes := 0, 1, [];
    }

    /** Close the channel and put a new one in its place; it has not been closed before. */
    method Fire()
      requires Channels(View())
      modifies this`waitChan, this`nextChan, this`closes
      ensures View() == Steps.Fire(old(View())) && Channels(View())
      ensures old(waitChan) !in old(closes) && waitChan !in closes
    {
      closes := closes + [waitChan];
      waitChan := nextChan;
      nextChan := nextChan + 1;
    }

    method SetRunning(p: int)
      requires Valid()
      modifies this
      ensures Valid() && View() == Steps.SetRunning(old(View()), p)
    {
      error := "";
      running, paused, restarting := true, false, false;
      exitCode, pid, started := 0, p, true;
      Fire();
    }

    method SetStopped(code: int)
      requires Valid()
      modifies this
      ensures Valid() && View() == Steps.SetStopped(old(View()), code)
    {
      running, restarting, pid, exitCode := false, false, 0, code;
      Fire();
    }

    method SetRestarting(code: int)
      requires Valid()
      modifies this
      ensures Valid() && View() == Steps.SetRestarting(old(View()), code)
    {
      running, restarting, pid, exitCode := true, true, 0, code;
      Fire();
    }
  }
}
