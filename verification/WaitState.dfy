/**
 The state of a container and those who wait for it to change.

 Each setter closes the channel the waiters block on and puts a new one in its place.  A setter, a
 locked read and a wake-up are one step each, and steps of any number of waiters interleave freely.
 */
module WaitState {

  /** Identity of a channel. */
  type Chan = nat

  datatype State = State(
    running: bool, paused: bool, restarting: bool, dead: bool, pid: int, exitCode: int, error: string,
    started: bool,         // StartedAt is set
    waitChan: Chan,
    nextChan: Chan,        // channels from here on have not been made yet
    closes: seq<Chan>)     // every call of close, in order

  function NewState(): State {
    State(false, false, false, false, 0, 0, "", false, 0, 1, [])
  }

  /** Close the channel and replace it. */
  function Fire(s: State): State {
    s.(closes := s.closes + [s.waitChan], waitChan := s.nextChan, nextChan := s.nextChan + 1)
  }

  function SetRunning(s: State, pid: int): State {
    Fire(s.(error := "", running := true, paused := false, restarting := false, exitCode := 0, pid := pid,
            started := true))
  }

  function SetStopped(s: State, exitCode: int): State {
    Fire(s.(running := false, restarting := false, pid := 0, exitCode := exitCode))
  }

  function SetRestarting(s: State, exitCode: int): State {
    Fire(s.(running := true, restarting := true, pid := 0, exitCode := exitCode))
  }

  function StateString(s: State): string {
    if s.running then
      if s.paused then "paused" else if s.restarting then "restarting" else "running"
    else if s.dead then "dead"
    else if !s.started then "created"
    else "exited"
  }

  predicate IsValidStateString(x: string) {
    x == "paused" || x == "restarting" || x == "running" || x == "dead" || x == "created" || x == "exited"
  }

  // ----- Waiters -----

  type Waiter = nat

  /** What a waiter that has read the state is doing: it blocks on the channel it saw.  `since` is the
      number of transitions before it looked. */
  datatype Waiting = Waiting(chan: Chan, forRunning: bool, since: nat)

  datatype Answer = Pid(pid: int) | ExitCode(code: int) | TimedOut

  datatype World = World(state: State, waiting: map<Waiter, Waiting>, answers: map<Waiter, Answer>)

  function Init(): World {
    World(NewState(), map[], map[])
  }

  datatype Step =
    | Run(pid: int) | Stop(code: int) | Restart(code: int)     // the three transitions
    | Pause | Unpause | Die | Fail(message: string)              // what others set
    | WaitRunning(w: Waiter) | WaitStop(w: Waiter)               // look, and block unless it is so already
    | Wake(w: Waiter) | Timeout(w: Waiter)

  function Transitions(s: State): nat {
    |s.closes|
  }

  function Begin(v: World, w: Waiter, forRunning: bool): World {
    if w in v.waiting || w in v.answers then v
    else if v.state.running == forRunning then
      v.(answers := v.answers[w := if forRunning then Pid(v.state.pid) else ExitCode(v.state.exitCode)])
    else v.(waiting := v.waiting[w := Waiting(v.state.waitChan, forRunning, Transitions(v.state))])
  }

  /** A waiter can go on once its channel is closed. */
  predicate CanWake(v: World, w: Waiter) {
    w in v.waiting && v.waiting[w].chan in v.state.closes
  }

  function Next(v: World, e: Step): World {
    match e
    case Run(pid) => v.(state := SetRunning(v.state, pid))
    case Stop(code) => v.(state := SetStopped(v.state, code))
    case Restart(code) => v.(state := SetRestarting(v.state, code))
    case Pause => if v.state.running then v.(state := v.state.(paused := true)) else v
    case Unpause => v.(state := v.state.(paused := false))
    case Die => v.(state := v.state.(dead := true))
    case Fail(message) => v.(state := v.state.(error := message))
    case WaitRunning(w) => Begin(v, w, true)
    case WaitStop(w) => Begin(v, w, false)
    case Wake(w) =>
      if !CanWake(v, w) then v
      else v.(waiting := v.waiting - {w},
              answers := v.answers[w := if v.waiting[w].forRunning then Pid(v.state.pid)
                                        else ExitCode(v.state.exitCode)])
    case Timeout(w) =>
      if w !in v.waiting then v else v.(waiting := v.waiting - {w}, answers := v.answers[w := TimedOut])
  }

  function RunAll(v: World, steps: seq<Step>): World
    decreases |steps|
  {
    if steps == [] then v else RunAll(Next(v, steps[0]), steps[1..])
  }

  predicate IsTransition(e: Step) {
    e.Run? || e.Stop? || e.Restart?
  }

  function CountTransitions(steps: seq<Step>): nat
    decreases |steps|
  {
    if steps == [] then 0 else CountTransitions(steps[1..]) + if IsTransition(steps[0]) then 1 else 0
  }

  // ----- Invariant -----

  /** Channels are made and closed in order, each once; the current one is the only one still open. */
  ghost predicate Channels(s: State) {
    && s.waitChan == |s.closes| && s.nextChan == |s.closes| + 1
    && forall i :: 0 <= i < |s.closes| ==> s.closes[i] == i
  }

  ghost predicate Flags(s: State) {
    && (s.restarting ==> s.running)
    && (s.pid != 0 ==> s.running && !s.restarting)
  }

  ghost predicate Waiters(s: State, waiting: map<Waiter, Waiting>) {
    forall w :: w in waiting ==> waiting[w].chan == waiting[w].since <= Transitions(s)
  }

  ghost predicate Inv(v: World) {
    Channels(v.state) && Flags(v.state) && Waiters(v.state, v.waiting)
  }

  lemma NextInv(v: World, e: Step)
    requires Inv(v)
    ensures Inv(Next(v, e))
    ensures Transitions(Next(v, e).state) == Transitions(v.state) + if IsTransition(e) then 1 else 0
  {
  }

  lemma {:induction false} RunInv(v: World, steps: seq<Step>)
    requires Inv(v)
    ensures Inv(RunAll(v, steps))
    ensures Transitions(RunAll(v, steps).state) == Transitions(v.state) + CountTransitions(steps)
    decreases |steps|
  {
    if steps != [] {
      NextInv(v, steps[0]);
      RunInv(Next(v, steps[0]), steps[1..]);
    }
  }

  // ----- Promises -----

  /** No channel is ever closed twice, and the current one is open. */
  lemma NoDoubleClose(steps: seq<Step>)
    ensures var s := RunAll(Init(), steps).state;
      s.waitChan !in s.closes && forall i, j :: 0 <= i < j < |s.closes| ==> s.closes[i] != s.closes[j]
  {
    RunInv(Init(), steps);
  }

  /** A waiter is blocked only on the current channel, and it can go on exactly if there was a transition
      since it looked: no wake-up is lost and none is spurious. */
  lemma NoLostWakeups(steps: seq<Step>, w: Waiter)
    requires w in RunAll(Init(), steps).waiting
    ensures var v := RunAll(Init(), steps);
      && (CanWake(v, w) <==> Transitions(v.state) > v.waiting[w].since)
      && (CanWake(v, w) <==> v.waiting[w].chan != v.state.waitChan)
  {
    RunInv(Init(), steps);
    var v := RunAll(Init(), steps);
    var c := v.waiting[w].chan;
    if c < |v.state.closes| {
      assert v.state.closes[c] == c;
    }
  }

  /** From the moment it starts to wait, a waiter that has not gone on or timed out can go on as soon as
      a transition has happened, whatever else was done meanwhile. */
  lemma TransitionWakes(v: World, steps: seq<Step>, w: Waiter)
    requires Inv(v) && w in v.waiting && CountTransitions(steps) > 0
    requires w in RunAll(v, steps).waiting && RunAll(v, steps).waiting[w] == v.waiting[w]
    ensures CanWake(RunAll(v, steps), w)
  {
    RunInv(v, steps);
    var t := RunAll(v, steps);
    assert t.state.closes[v.waiting[w].chan] == v.waiting[w].chan;
  }

  /** Restarting implies running, and a process id means running and not restarting. */
  lemma FlagsAgree(steps: seq<Step>)
    ensures var s := RunAll(Init(), steps).state;
      (s.restarting ==> s.running) && (s.pid != 0 ==> s.running && !s.restarting)
  {
    RunInv(Init(), steps);
  }

  /** Whether the last word on pausing was a pause: taken while the container ran, and with no start and no
      unpause since.  Stops and restarts do not matter. */
  function PausedAfter(steps: seq<Step>): bool {
    if steps == [] then false
    else
      var before, e := steps[..|steps| - 1], steps[|steps| - 1];
      if e.Run? || e.Unpause? then false
      else if e.Pause? && LatestOf(before).Transition? && !LatestOf(before).step.Stop? then true
      else PausedAfter(before)
  }

  lemma NextPaused(v: World, e: Step)
    ensures Next(v, e).state.paused ==
      if e.Run? || e.Unpause? then false else if e.Pause? && v.state.running then true else v.state.paused
  {
  }

  lemma {:induction false} PausedReflects(steps: seq<Step>)
    ensures RunAll(Init(), steps).state.paused == PausedAfter(steps)
  {
    if steps != [] {
      var before, e := steps[..|steps| - 1], steps[|steps| - 1];
      assert steps == before + [e];
      RunSnoc(Init(), before, e);
      PausedReflects(before);
      RunningIffLatest(before);
      NextPaused(RunAll(Init(), before), e);
    }
  }

  /** Neither stopping nor restarting clears the paused flag.  After any run the container is paused and not
      running exactly if the last word on pausing was a pause and the last transition a stop; and it is paused
      and restarting, and called paused, exactly if it was a pause and the last transition a restart. */
  lemma PausedAcrossTransitions(steps: seq<Step>)
    ensures var s, latest := RunAll(Init(), steps).state, LatestOf(steps);
      && (s.paused && !s.running <==> PausedAfter(steps) && latest.Transition? && latest.step.Stop?)
      && (s.paused && s.restarting <==> PausedAfter(steps) && latest.Transition? && latest.step.Restart?)
      && (s.paused && s.restarting ==> StateString(s) == "paused")
  {
    PausedReflects(steps);
    StateReflectsLatest(steps);
    if PausedAfter(steps) {
      PausedSawTransition(steps);
    }
  }

  lemma {:induction false} PausedSawTransition(steps: seq<Step>)
    requires PausedAfter(steps)
    ensures LatestOf(steps).Transition?
  {
    var before := steps[..|steps| - 1];
    if PausedAfter(before) {
      PausedSawTransition(before);
    }
  }

  lemma PausedAndStopped()
    ensures var s := RunAll(Init(),
                            [Run(7), Pause, Stop(0)]).state; s.paused && !s.running && StateString(s) == "exited"
  {
    var a := Next(Init(), Run(7));
    var b := Next(a, Pause);
    var c := Next(b, Stop(0));
    Unfold(Init(), Run(7), [Pause, Stop(0)]);
    Unfold(a, Pause, [Stop(0)]);
    Unfold(b, Stop(0), []);
    assert [Run(7)] + [Pause, Stop(0)] == [Run(7), Pause, Stop(0)];
    assert [Pause] + [Stop(0)] == [Pause, Stop(0)] && [Stop(0)] + [] == [Stop(0)];
  }

  lemma Unfold(v: World, e: Step, rest: seq<Step>)
    ensures RunAll(v, [e] + rest) == RunAll(Next(v, e), rest)
  {
    assert ([e] + rest)[1..] == rest;
  }

  // ----- What a waiter finds -----

  datatype Latest = NoTransition | Transition(step: Step)

  /** The last transition of a run. */
  function LatestOf(steps: seq<Step>): Latest {
    if steps == [] then NoTransition
    else
      var e := steps[|steps| - 1];
      if IsTransition(e) then Transition(e) else LatestOf(steps[..|steps| - 1])
  }

  lemma {:induction false} RunSnoc(v: World, steps: seq<Step>, e: Step)
    ensures RunAll(v, steps + [e]) == Next(RunAll(v, steps), e)
    decreases |steps|
  {
    if steps == [] {
      Unfold(v, e, []);
      assert [e] + [] == [e] == steps + [e];
    } else {
      RunSnoc(Next(v, steps[0]), steps[1..], e);
      assert (steps + [e])[1..] == steps[1..] + [e];
    }
  }

  /** The exit code a transition leaves behind. */
  function CodeOf(latest: Latest): int {
    match latest
    case Transition(Stop(code)) => code
    case Transition(Restart(code)) => code
    case _ => 0
  }

  /** The process id a transition leaves behind. */
  function PidOf(latest: Latest): int {
    match latest
    case Transition(Run(pid)) => pid
    case _ => 0
  }

  /** The flags and numbers a state has after its last transition. */
  ghost predicate Reflects(s: State, latest: Latest) {
    && (s.running <==> latest.Transition? && !latest.step.Stop?)
    && (s.restarting <==> latest.Transition? && latest.step.Restart?)
    && s.pid == PidOf(latest) && s.exitCode == CodeOf(latest)
  }

  lemma NextReflects(v: World, e: Step, latest: Latest)
    requires Reflects(v.state, latest)
    ensures Reflects(Next(v, e).state, if IsTransition(e) then Transition(e) else latest)
  {
  }

  lemma {:induction false} StateReflectsLatest(steps: seq<Step>)
    ensures Reflects(RunAll(Init(), steps).state, LatestOf(steps))
  {
    if steps != [] {
      var before, e := steps[..|steps| - 1], steps[|steps| - 1];
      assert steps == before + [e];
      RunSnoc(Init(), before, e);
      StateReflectsLatest(before);
      NextReflects(RunAll(Init(), before), e, LatestOf(before));
    }
  }

  /** After any run the container is not running exactly if there was no transition or the last one was
      a stop, and it runs under a process of its own exactly if the last one was a start. */
  lemma RunningIffLatest(steps: seq<Step>)
    ensures var s := RunAll(Init(), steps).state;
      && (!s.running <==> LatestOf(steps).NoTransition? || LatestOf(steps).step.Stop?)
      && (s.running && !s.restarting <==> LatestOf(steps).Transition? && LatestOf(steps).step.Run?)
  {
    StateReflectsLatest(steps);
    LatestIsTransition(steps);
  }

  lemma {:induction false} LatestIsTransition(steps: seq<Step>)
    ensures LatestOf(steps).Transition? ==> IsTransition(LatestOf(steps).step)
    ensures LatestOf(steps).NoTransition? <==> forall i :: 0 <= i < |steps| ==> !IsTransition(steps[i])
  {
    if steps != [] {
      LatestIsTransition(steps[..|steps| - 1]);
    }
  }

  /** A waiter that goes on has seen a transition. */
  lemma WokenSawTransition(steps: seq<Step>, w: Waiter)
    requires CanWake(RunAll(Init(), steps), w)
    ensures LatestOf(steps).Transition?
  {
    RunInv(Init(), steps);
    LatestIsTransition(steps);
    if LatestOf(steps).NoTransition? {
      NoTransitions(steps);
    }
  }

  lemma {:induction false} NoTransitions(steps: seq<Step>)
    requires forall i :: 0 <= i < |steps| ==> !IsTransition(steps[i])
    ensures CountTransitions(steps) == 0
    decreases |steps|
  {
    if steps != [] {
      NoTransitions(steps[1..]);
    }
  }

  /** A blocked `WaitStop` that goes on finds the container stopped exactly if the last transition was a
      stop, and then answers with the exit code of that stop; otherwise a restart or a start came in
      between, and it answers with the exit code of the restart, or with 0. */
  lemma WaitStopFinds(steps: seq<Step>, w: Waiter)
    requires CanWake(RunAll(Init(), steps), w) && !RunAll(Init(), steps).waiting[w].forRunning
    ensures var v := RunAll(Init(), steps + [Wake(w)]);
      && LatestOf(steps).Transition? && w in v.answers && v.answers[w].ExitCode?
      && (!v.state.running <==> LatestOf(steps).step.Stop?)
      && v.answers[w].code == CodeOf(LatestOf(steps))
  {
    WokenSawTransition(steps, w);
    LatestIsTransition(steps);
    StateReflectsLatest(steps);
    RunSnoc(Init(), steps, Wake(w));
  }

  /** A blocked `waitRunning` that goes on finds a process exactly if the last transition was a start, and
      then answers with the process id passed to it; otherwise it answers with 0. */
  lemma WaitRunningFinds(steps: seq<Step>, w: Waiter)
    requires CanWake(RunAll(Init(), steps), w) && RunAll(Init(), steps).waiting[w].forRunning
    ensures var v := RunAll(Init(), steps + [Wake(w)]);
      && LatestOf(steps).Transition? && w in v.answers && v.answers[w].Pid?
      && (v.state.running && !v.state.restarting <==> LatestOf(steps).step.Run?)
      && v.answers[w].pid == PidOf(LatestOf(steps))
  {
    WokenSawTransition(steps, w);
    LatestIsTransition(steps);
    StateReflectsLatest(steps);
    RunSnoc(Init(), steps, Wake(w));
  }

  /** One that need not block answers for the transition before it looked. */
  lemma WaitFindsAtOnce(steps: seq<Step>, w: Waiter, forRunning: bool)
    requires w !in RunAll(Init(), steps).waiting && w !in RunAll(Init(), steps).answers
    requires RunAll(Init(), steps).state.running == forRunning
    ensures var v := RunAll(Init(), steps + [if forRunning then WaitRunning(w) else WaitStop(w)]);
      && w in v.answers
      && v.answers[w] == if forRunning then Pid(PidOf(LatestOf(steps))) else ExitCode(CodeOf(LatestOf(steps)))
  {
    StateReflectsLatest(steps);
    LatestIsTransition(steps);
    RunningIffLatest(steps);
    RunSnoc(Init(), steps, if forRunning then WaitRunning(w) else WaitStop(w));
  }

  /** `WaitStop` returns on any transition: it may find the container running again. */
  lemma WaitStopMayFindRunning()
    ensures var v := RunAll(Init(), [Run(7), WaitStop(0), Restart(1), Wake(0)]);
      0 in v.answers && v.answers[0] == ExitCode(1) && v.state.running
  {
    var a := Next(Init(), Run(7));
    var b := Next(a, WaitStop(0));
    var c := Next(b, Restart(1));
    Unfold(Init(), Run(7), [WaitStop(0), Restart(1), Wake(0)]);
    Unfold(a, WaitStop(0), [Restart(1), Wake(0)]);
    Unfold(b, Restart(1), [Wake(0)]);
    Unfold(c, Wake(0), []);
    assert [Run(7)] + [WaitStop(0), Restart(1), Wake(0)] == [Run(7), WaitStop(0), Restart(1), Wake(0)];
    assert [WaitStop(0)] + [Restart(1), Wake(0)] == [WaitStop(0), Restart(1), Wake(0)];
    assert [Restart(1)] + [Wake(0)] == [Restart(1), Wake(0)] && [Wake(0)] + [] == [Wake(0)];
    assert b.waiting[0].chan in c.state.closes by {
      assert c.state.closes[1] == 1;
    }
  }

  /** One that has to block is blocked from then on, for what it asked for, and has no answer yet. */
  lemma WaitBlocks(steps: seq<Step>, w: Waiter, forRunning: bool)
    requires w !in RunAll(Init(), steps).waiting && w !in RunAll(Init(), steps).answers
    requires RunAll(Init(), steps).state.running != forRunning
    ensures var v := RunAll(Init(), steps + [if forRunning then WaitRunning(w) else WaitStop(w)]);
      && w in v.waiting && w !in v.answers && v.waiting[w].forRunning == forRunning
      && v.waiting[w].since == CountTransitions(steps) && v.state == RunAll(Init(), steps).state
  {
    RunInv(Init(), steps);
    RunSnoc(Init(), steps, if forRunning then WaitRunning(w) else WaitStop(w));
  }

  /** One that times out is told so, and is not blocked any more. */
  lemma TimeoutTells(steps: seq<Step>, w: Waiter)
    requires w in RunAll(Init(), steps).waiting
    ensures var v := RunAll(Init(), steps + [Timeout(w)]);
      w !in v.waiting && w in v.answers && v.answers[w] == TimedOut && v.state == RunAll(Init(), steps).state
  {
    RunSnoc(Init(), steps, Timeout(w));
  }

  /** What becomes of a waiter is its own affair: steps of others, and transitions, leave its wait and its answer
      alone. */
  lemma WaitersAreApart(v: World, e: Step, w: Waiter)
    requires !(e.WaitRunning? || e.WaitStop? || e.Wake? || e.Timeout?) || e.w != w
    ensures w in Next(v, e).waiting <==> w in v.waiting
    ensures w in v.waiting ==> Next(v, e).waiting[w] == v.waiting[w]
    ensures w in Next(v, e).answers <==> w in v.answers
    ensures w in v.answers ==> Next(v, e).answers[w] == v.answers[w]
  {
  }

  // ----- What a state is called -----

  /** The error a state shows: that of the last failure since the last start. */
  function ErrorAfter(steps: seq<Step>): string {
    if steps == [] then ""
    else
      var e := steps[|steps| - 1];
      if e.Run? then "" else if e.Fail? then e.message else ErrorAfter(steps[..|steps| - 1])
  }

  ghost predicate EverRan(steps: seq<Step>) {
    exists i :: 0 <= i < |steps| && steps[i].Run?
  }

  ghost predicate EverDied(steps: seq<Step>) {
    exists i :: 0 <= i < |steps| && steps[i].Die?
  }

  lemma EverSnoc(steps: seq<Step>, e: Step)
    ensures EverRan(steps + [e]) <==> EverRan(steps) || e.Run?
    ensures EverDied(steps + [e]) <==> EverDied(steps) || e.Die?
  {
    var all := steps + [e];
    assert all[|steps|] == e;
    if EverRan(steps) {
      var i :| 0 <= i < |steps| && steps[i].Run?;
      assert all[i].Run?;
    }
    if EverDied(steps) {
      var i :| 0 <= i < |steps| && steps[i].Die?;
      assert all[i].Die?;
    }
  }

  lemma NextRemembers(v: World, e: Step)
    ensures var s, t := v.state, Next(v, e).state;
      && (t.started <==> s.started || e.Run?) && (t.dead <==> s.dead || e.Die?)
      && t.error == if e.Run? then "" else if e.Fail? then e.message else s.error
  {
  }

  /** After any run the container has been started exactly if there was a start, is dead exactly if it was declared so,
      and shows the error of the last failure since the last start. */
  lemma {:induction false} StateRemembers(steps: seq<Step>)
    ensures var s := RunAll(Init(), steps).state;
      (s.started <==> EverRan(steps)) && (s.dead <==> EverDied(steps)) && s.error == ErrorAfter(steps)
  {
    if steps != [] {
      var before, e := steps[..|steps| - 1], steps[|steps| - 1];
      assert steps == before + [e];
      RunSnoc(Init(), before, e);
      StateRemembers(before);
      EverSnoc(before, e);
      NextRemembers(RunAll(Init(), before), e);
    }
  }

  /** What a container is called after any run, read off its steps: paused, if the last word on pausing was a pause and
      the last transition was no stop; restarting or running after a restart or a start, if it is not paused; and else
      dead if it was declared so, created if it was never started, and exited otherwise. */
  lemma NameAfter(steps: seq<Step>)
    ensures var name, latest := StateString(RunAll(Init(), steps).state), LatestOf(steps);
      var up := latest.Transition? && !latest.step.Stop?;
      && (name == "paused" <==> up && PausedAfter(steps))
      && (name == "restarting" <==> up && !PausedAfter(steps) && latest.step.Restart?)
      && (name == "running" <==> up && !PausedAfter(steps) && latest.step.Run?)
      && (name == "dead" <==> !up && EverDied(steps))
      && (name == "created" <==> !up && !EverDied(steps) && !EverRan(steps))
      && (name == "exited" <==> !up && !EverDied(steps) && EverRan(steps))
  {
    StateReflectsLatest(steps);
    LatestIsTransition(steps);
    PausedReflects(steps);
    StateRemembers(steps);
    StateStringIsValid(RunAll(Init(), steps).state);
  }

  /** The names are different. */
  lemma NamesDiffer()
    ensures "paused" != "exited" && "created" != "running"
    ensures |"paused"| == |"exited"| == 6 && |"created"| == |"running"| == 7 && |"dead"| == 4 && |"restarting"| == 10
  {
    assert "paused"[0] == 'p' && "exited"[0] == 'e' && "created"[0] == 'c' && "running"[0] == 'r';
  }

  /** The state has one name at a time, it is one of the valid ones, and it tells the flags. */
  lemma StateStringIsValid(s: State)
    ensures IsValidStateString(StateString(s))
    ensures StateString(s) == "paused" <==> s.running && s.paused
    ensures StateString(s) == "restarting" <==> s.running && !s.paused && s.restarting
    ensures StateString(s) == "running" <==> s.running && !s.paused && !s.restarting
    ensures StateString(s) == "dead" <==> !s.running && s.dead
    ensures StateString(s) == "created" <==> !s.running && !s.dead && !s.started
    ensures StateString(s) == "exited" <==> !s.running && !s.dead && s.started
  {
    NamesDiffer();
  }
}
