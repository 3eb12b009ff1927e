/**
 `CreateRWLayer` and `ReleaseRWLayer` as uninterrupted calls.
 */
module LayerMounts {
  import opened LayerState
  import opened LayerSafety
  import opened LayerRegister

  datatype CreateRWResult = CreatedRW(handle: RWHandle) | NameConflict | ParentUnknown | CreateRWFailed

  /** The part of `CreateRWLayer` after the parent is held. */
  function MakeMount(s: State, name: string, p: Option<Obj>, mountID: string, initID: string, out: CreateRW, io: Faults)
    : (State, CreateRWResult)
    requires Wf(s.core) && ValidParent(s.core.objs, p)
  {
    var m := Mount(s.nextRW, mountID, initID, p);
    var t := s.(disk := CreateRWDisk(s.disk, s.core.objs, name, m, out));
    if out.Saved? then
      (RWReference(t.(core := AddMount(s.core, name, m), nextRW := s.nextRW + 1), name, m.id),
       CreatedRW(RWHandle(name, m.id, s.nextRW + 1)))
    else (GiveBack(t, p, io), CreateRWFailed)
  }

  function CreateRWLayer(s: State, name: string, parent: string, mountID: string, initID: string, out: CreateRW,
                         io: Faults)
    : (State, CreateRWResult)
    requires Wf(s.core)
  {
    if name in s.core.mounts then (s, NameConflict)
    else if parent != "" && parent !in s.core.layerMap then (s, ParentUnknown)
    else
      var p := if parent == "" then None else Some(s.core.layerMap[parent]);
      MakeMount(s.(core := Hold(s.core, p)), name, p, mountID, initID, out, io)
  }

  /** The state after `ReleaseRWLayer` has dealt with the mount, and before it releases the parent. */
  function DropMount(s: State, h: RWHandle, fault: ReleaseRWFault): (State, Option<Obj>)
  {
    var out := ReleaseRWResult(s, h, fault);
    if out.MountUnknown? || out.RWNotRetained? || out.ActiveMount? then (s, None)
    else
      var m := s.core.mounts[h.name];
      var t := s.(rwRefs := s.rwRefs - {h}, rw := s.rw[h := s.rw[h].(count := -1)],
                  disk := if out.StillReferenced? then s.disk else ReleaseRWDisk(s.disk, h.name, m, fault));
      if out.MountRemoved? then (t.(core := RemoveMount(s.core, h.name)), m.parent) else (t, None)
  }

  lemma DropMountWf(s: State, h: RWHandle, fault: ReleaseRWFault)
    requires Wf(s.core)
    ensures Wf(DropMount(s, h, fault).0.core)
    ensures ValidParent(DropMount(s, h, fault).0.core.objs, DropMount(s, h, fault).1)
    ensures DropMount(s, h, fault).0.core.procs == s.core.procs && DropMount(s, h, fault).0.mountOwner == s.mountOwner
  {
  }

  function ReleaseRWLayer(s: State, h: RWHandle, fault: ReleaseRWFault, io: Faults): (State, ReleaseRWOutcome)
    requires Wf(s.core)
  {
    DropMountWf(s, h, fault);
    var (t, p) := DropMount(s, h, fault);
    (GiveBack(t, p, io), ReleaseRWResult(s, h, fault))
  }

  // ----- Calls are runs of their steps -----

  /** The clean-up of an operation that holds the mount lock. */
  function LockedWinding(s: State, pid: Pid, p: Option<Obj>): State {
    if p.Some? then Busy(s, pid, Unwinding(p.value, true)).(mountOwner := Some(pid)) else s
  }

  lemma LockedUnwinds(s: State, pid: Pid, p: Option<Obj>, io: Faults)
    requires Wf(s.core) && ValidParent(s.core.objs, p) && pid !in s.core.procs && s.mountOwner == None
    ensures Wf(LockedWinding(s, pid, p).core)
    ensures Next(LockedWinding(s, pid, p), SUnwind(pid, io)) == GiveBack(s, p, io)
  {
    if p.Some? {
      BusyWf(s, pid, Unwinding(p.value, true));
      BusyEnds(s, pid, Unwinding(p.value, true));
      var w := LockedWinding(s, pid, p);
      assert w.(core := EndProc(w.core, pid), mountOwner := None) == s;
    }
  }

  lemma ReleaseRWStep(s: State, pid: Pid, h: RWHandle, fault: ReleaseRWFault)
    requires Wf(s.core) && pid !in s.core.procs && s.mountOwner == None
    ensures Next(s, SReleaseRW(pid, h, fault)) == LockedWinding(DropMount(s, h, fault).0, pid, DropMount(s, h, fault).1)
  {
  }

  /** An uninterrupted `ReleaseRWLayer` is the run of its two steps. */
  lemma ReleaseRWIsRun(s: State, pid: Pid, h: RWHandle, fault: ReleaseRWFault, io: Faults)
    requires Wf(s.core) && pid !in s.core.procs && s.mountOwner == None
    ensures Reaches(s, [SReleaseRW(pid, h, fault), SUnwind(pid, io)], ReleaseRWLayer(s, h, fault, io).0)
  {
    ReleaseRWStep(s, pid, h, fault);
    DropMountWf(s, h, fault);
    LockedUnwinds(DropMount(s, h, fault).0, pid, DropMount(s, h, fault).1, io);
    TwoSteps(s, SReleaseRW(pid, h, fault), SUnwind(pid, io));
  }

  lemma ReleaseRWInv(s: State, h: RWHandle, fault: ReleaseRWFault, io: Faults)
    requires Inv(s) && s.mountOwner == None
    ensures Inv(ReleaseRWLayer(s, h, fault, io).0)
  {
    var pid := FreshPid(s.core.procs.Keys);
    ReleaseRWIsRun(s, pid, h, fault, io);
    RunInv(s, [SReleaseRW(pid, h, fault), SUnwind(pid, io)], ReleaseRWLayer(s, h, fault, io).0);
  }

  lemma CreateRWBeginStep(s: State, pid: Pid, name: string, parent: string)
    requires Wf(s.core) && pid !in s.core.procs && s.mountOwner == None && name !in s.core.mounts
    requires parent == "" || parent in s.core.layerMap
    ensures var p := if parent == "" then None else Some(s.core.layerMap[parent]);
      && Wf(Hold(s.core, p)) && ValidParent(s.core.objs, p)
      && Next(s, SCreateRW(pid, name, parent)) == Busy(s.(core := Hold(s.core, p)), pid,
                                                       CreateHeld(name, p)).(mountOwner := Some(pid))
  {
  }

  /** The step that makes the mount, or starts to unwind. */
  lemma MakeMountStep(s: State, pid: Pid, name: string, p: Option<Obj>, mountID: string, initID: string, out: CreateRW)
    requires Wf(s.core) && ValidParent(s.core.objs, p) && pid !in s.core.procs && s.mountOwner == None
    ensures var b := Busy(s, pid, CreateHeld(name, p)).(mountOwner := Some(pid));
      var m := Mount(s.nextRW, mountID, initID, p);
      var t := s.(disk := CreateRWDisk(s.disk, s.core.objs, name, m, out));
      && Wf(b.core)
      && Next(b, SCreateRWFinish(pid, mountID, initID, out)) ==
         if out.Saved? then RWReference(t.(core := AddMount(s.core, name, m), nextRW := s.nextRW + 1), name, m.id)
         else LockedWinding(t, pid, p)
  {
    BusyWf(s, pid, CreateHeld(name, p));
    BusyEnds(s, pid, CreateHeld(name, p));
  }

  lemma AddMountWf(k: Core, name: string, m: Mount)
    requires Wf(k) && ValidParent(k.objs, m.parent)
    ensures Wf(AddMount(k, name, m))
  {
  }

  lemma MakeMountRun(s: State, pid: Pid, name: string, p: Option<Obj>, mountID: string, initID: string, out: CreateRW,
                     io: Faults)
    requires Wf(s.core) && ValidParent(s.core.objs, p) && pid !in s.core.procs && s.mountOwner == None
    ensures Reaches(Busy(s, pid, CreateHeld(name, p)).(mountOwner := Some(pid)),
                    [SCreateRWFinish(pid, mountID, initID, out), SUnwind(pid, io)],
                    MakeMount(s, name, p, mountID, initID, out, io).0)
  {
    var b := Busy(s, pid, CreateHeld(name, p)).(mountOwner := Some(pid));
    var e := SCreateRWFinish(pid, mountID, initID, out);
    var m := Mount(s.nextRW, mountID, initID, p);
    MakeMountStep(s, pid, name, p, mountID, initID, out);
    AddMountWf(s.core, name, m);
    if !out.Saved? {
      LockedUnwinds(s.(disk := CreateRWDisk(s.disk, s.core.objs, name, m, out)), pid, p, io);
    }
    TwoSteps(b, e, SUnwind(pid, io));
  }

  /** An uninterrupted `CreateRWLayer` is the run of its three steps. */
  lemma CreateRWIsRun(s: State, pid: Pid, name: string, parent: string, mountID: string, initID: string, out: CreateRW,
                      io: Faults)
    requires Wf(s.core) && pid !in s.core.procs && s.mountOwner == None
    ensures Reaches(s, [SCreateRW(pid, name, parent)] + [SCreateRWFinish(pid, mountID, initID, out), SUnwind(pid, io)],
                    CreateRWLayer(s, name, parent, mountID, initID, out, io).0)
  {
    var e, rest := SCreateRW(pid, name, parent), [SCreateRWFinish(pid, mountID, initID, out), SUnwind(pid, io)];
    var t := CreateRWLayer(s, name, parent, mountID, initID, out, io).0;
    if name in s.core.mounts || (parent != "" && parent !in s.core.layerMap) {
      NothingToDo(s, pid, mountID, initID, out, io);
    } else {
      var p := if parent == "" then None else Some(s.core.layerMap[parent]);
      CreateRWBeginStep(s, pid, name, parent);
      MakeMountRun(s.(core := Hold(s.core, p)), pid, name, p, mountID, initID, out, io);
    }
    StepRun(s, e, rest, t);
  }

  lemma NothingToDo(s: State, pid: Pid, mountID: string, initID: string, out: CreateRW, io: Faults)
    requires Wf(s.core) && pid !in s.core.procs
    ensures Reaches(s, [SCreateRWFinish(pid, mountID, initID, out), SUnwind(pid, io)], s)
  {
    TwoSteps(s, SCreateRWFinish(pid, mountID, initID, out), SUnwind(pid, io));
  }

  lemma CreateRWInv(s: State, name: string, parent: string, mountID: string, initID: string, out: CreateRW, io: Faults)
    requires Inv(s) && s.mountOwner == None
    ensures Inv(CreateRWLayer(s, name, parent, mountID, initID, out, io).0)
  {
    var pid := FreshPid(s.core.procs.Keys);
    CreateRWIsRun(s, pid, name, parent, mountID, initID, out, io);
    RunInv(s, [SCreateRW(pid, name, parent)] + [SCreateRWFinish(pid, mountID, initID, out), SUnwind(pid, io)],
           CreateRWLayer(s, name, parent, mountID, initID, out, io).0);
  }
}
