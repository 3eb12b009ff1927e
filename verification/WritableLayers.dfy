/**
 Writable layers: the handles on a mount and their activity counts, over every run of the store.
 */
module WritableLayers {
  import opened LayerState
  import opened LayerSafety

  /** The activity count is -1 for a released handle, and else the driver mounts asked for on its
      behalf minus those given back, whether or not the driver did as it was told. */
  ghost predicate Balanced(a: Activity) {
    && a.count >= -1
    && a.getsOk + a.getsFailed == a.putsOk + a.putsFailed + if a.count == -1 then 0 else a.count
  }

  /** A live handle is one of a mount that is there. */
  ghost predicate OnMount(mounts: map<string, Mount>, h: RWHandle) {
    h.name in mounts && mounts[h.name].id == h.mount
  }

  ghost predicate RWInv(mounts: map<string, Mount>, refs: set<RWHandle>, rw: map<RWHandle, Activity>, next: nat) {
    && (forall h :: h in refs ==> h in rw && OnMount(mounts, h))
    && (forall h :: h in rw ==> Balanced(rw[h]) && h.id < next && (rw[h].count == -1 <==> h !in refs))
  }

  ghost predicate WritableInv(s: State) {
    RWInv(s.core.mounts, s.rwRefs, s.rw, s.nextRW)
  }

  lemma NewHandleWritable(s: State, name: string, mount: nat)
    requires WritableInv(s) && name in s.core.mounts && s.core.mounts[name].id == mount
    ensures WritableInv(RWReference(s, name, mount))
  {
  }

  lemma CreateWritable(s: State, pid: Pid, name: string, parent: Option<Obj>, mountID: string, initID: string,
                       out: CreateRW)
    requires WritableInv(s) && ValidParent(s.core.objs, parent) && name !in s.core.mounts
    ensures WritableInv(CreateRWFinish(s, pid, name, parent, mountID, initID, out))
  {
    if out.Saved? {
      var m := Mount(s.nextRW, mountID, initID, parent);
      var t := s.(disk := CreateRWDisk(s.disk, s.core.objs, name, m, out));
      var u := t.(core := AddMount(EndProc(s.core, pid), name, m), nextRW := s.nextRW + 1, mountOwner := None);
      assert WritableInv(u);
      NewHandleWritable(u, name, m.id);
    }
  }

  /** Steps that leave mounts and writable handles alone. */
  predicate LeavesMounts(e: Step) {
    !e.SCreateRWFinish? && !e.SGetRW? && !e.SReleaseRW? && !e.SMount? && !e.SUnmount?
  }

  lemma LeavesMountsSame(s: State, e: Step)
    requires Wf(s.core) && LeavesMounts(e)
    ensures SameRW(s, Next(s, e))
  {
    if Enabled(s, e) {
      match e
      case SCommit(pid, ok) =>
        assert ValidParent(s.core.objs, s.core.procs[pid].Hold());
        CommitSameRW(s, pid, s.core.procs[pid].layer, ok);
      case SUnwind(pid, io) =>
        assert ValidParent(s.core.objs, s.core.procs[pid].Hold());
        UnwindSameRW(s, pid, s.core.procs[pid].obj, s.core.procs[pid].mountLocked, io);
      case SRelease(h, io) => ReleaseSameRW(s, h, io);
      case _ =>
    }
  }

  lemma CommitSameRW(s: State, pid: Pid, l: RoLayer, ok: bool)
    requires Wf(s.core) && ValidParent(s.core.objs, l.parent)
    ensures SameRW(s, RegisterCommit(s, pid, l, ok))
  {
  }

  lemma UnwindSameRW(s: State, pid: Pid, o: Obj, locked: bool, io: Faults)
    requires Wf(s.core) && o in s.core.objs
    ensures SameRW(s, UnwindRelease(s, pid, o, locked, io))
  {
  }

  lemma ReleaseSameRW(s: State, h: Handle, io: Faults)
    requires Wf(s.core) && h.obj in s.core.objs
    ensures SameRW(s, Release(s, h, io).0)
  {
  }

  /** A handle without outstanding mounts is given up. */
  lemma GiveUpHandle(mounts: map<string, Mount>, refs: set<RWHandle>, rw: map<RWHandle, Activity>, next: nat,
                     h: RWHandle)
    requires RWInv(mounts, refs, rw, next) && h in refs && h in rw && rw[h].count <= 0
    ensures RWInv(mounts, refs - {h}, rw[h := rw[h].(count := -1)], next)
  {
  }

  /** A mount without handles goes. */
  lemma GiveUpMount(mounts: map<string, Mount>, refs: set<RWHandle>, rw: map<RWHandle, Activity>, next: nat,
                    name: string)
    requires RWInv(mounts, refs, rw, next) && name in mounts
    requires forall g :: g in refs && g.name == name ==> g.mount != mounts[name].id
    ensures RWInv(mounts - {name}, refs, rw, next)
  {
    forall g | g in refs ensures OnMount(mounts - {name}, g) {
      assert OnMount(mounts, g);
    }
  }

  lemma ReleaseWritable(s: State, pid: Pid, h: RWHandle, fault: ReleaseRWFault)
    requires WritableInv(s)
    ensures WritableInv(ReleaseRW(s, pid, h, fault))
  {
    var out := ReleaseRWResult(s, h, fault);
    if !(out.MountUnknown? || out.RWNotRetained? || out.ActiveMount?) {
      var refs, rw := s.rwRefs - {h}, s.rw[h := s.rw[h].(count := -1)];
      GiveUpHandle(s.core.mounts, s.rwRefs, s.rw, s.nextRW, h);
      if out.MountRemoved? {
        GiveUpMount(s.core.mounts, refs, rw, s.nextRW, h.name);
      }
    }
  }

  lemma ActivityWritable(s: State, h: RWHandle, ok: bool)
    requires WritableInv(s)
    ensures WritableInv(MountRW(s, h, ok)) && WritableInv(UnmountRW(s, h, ok))
  {
  }

  lemma NextWritable(s: State, e: Step)
    requires Inv(s) && WritableInv(s)
    ensures WritableInv(Next(s, e))
  {
    if LeavesMounts(e) {
      LeavesMountsSame(s, e);
    } else if Enabled(s, e) {
      match e
      case SCreateRWFinish(pid, mountID, initID, out) =>
        var p := s.core.procs[pid];
        assert ValidParent(s.core.objs, p.Hold());
        CreateWritable(s, pid, p.name, p.parent, mountID, initID, out);
      case SGetRW(name) =>
        if name in s.core.mounts { NewHandleWritable(s, name, s.core.mounts[name].id); }
      case SReleaseRW(pid, h, fault) => ReleaseWritable(s, pid, h, fault);
      case SMount(h, ok) => ActivityWritable(s, h, ok);
      case SUnmount(h, ok) => ActivityWritable(s, h, ok);
    }
  }

  lemma {:induction false} RunWritable(s: State, steps: seq<Step>, t: State)
    requires Inv(s) && WritableInv(s) && Reaches(s, steps, t)
    ensures Inv(t) && WritableInv(t)
    decreases |steps|
  {
    if steps != [] {
      NextInv(s, steps[0]);
      NextWritable(s, steps[0]);
      RunWritable(Next(s, steps[0]), steps[1..], t);
    }
  }

  /** Whether the step makes `ReleaseRWLayer` call the driver's Remove on the mount of `h`. */
  ghost predicate RemovesMount(s: State, h: RWHandle, fault: ReleaseRWFault) {
    ReleaseRWResult(s, h, fault).MountRemoved? || ReleaseRWResult(s, h, fault).RemoveFailed?
  }

  /** When the driver layer of a mount is removed, every handle ever made on that mount has been released,
      and as many driver mounts were given back on its behalf as were obtained, except for those whose
      Put failed. */
  lemma RemovesReleased(s: State, pid: Pid, x: RWHandle, fault: ReleaseRWFault, g: RWHandle)
    requires WritableInv(s) && RemovesMount(s, x, fault)
    requires g in s.rw && g.name == x.name && g.mount == x.mount
    ensures var a := ReleaseRW(s, pid, x, fault).rw;
            g in a && a[g].count == -1 && a[g].getsOk <= a[g].putsOk + a[g].putsFailed
  {
    assert g == x || g !in s.rwRefs;
    assert Balanced(s.rw[g]);
  }

  lemma NextKeepsReleased(s: State, e: Step, x: RWHandle)
    requires Inv(s) && WritableInv(s) && x in s.rw
    ensures x in Next(s, e).rw && (s.rw[x].count == -1 ==> Next(s, e).rw[x].count == -1)
  {
    if LeavesMounts(e) {
      LeavesMountsSame(s, e);
    }
  }

  /** A released handle stays at -1 for the rest of the run, and no other count is ever negative. */
  lemma {:induction false} ReleasedIsAbsorbing(s: State, steps: seq<Step>, t: State, x: RWHandle)
    requires Inv(s) && WritableInv(s) && Reaches(s, steps, t) && x in s.rw
    ensures WritableInv(t) && x in t.rw && t.rw[x].count >= -1
    ensures s.rw[x].count == -1 ==> t.rw[x].count == -1
    decreases |steps|
  {
    if steps != [] {
      NextInv(s, steps[0]);
      NextWritable(s, steps[0]);
      NextKeepsReleased(s, steps[0], x);
      ReleasedIsAbsorbing(Next(s, steps[0]), steps[1..], t, x);
    }
  }

  /** A live handle is refused its release exactly if more driver mounts were asked for on its behalf
      than were given back, whether or not the driver did as it was told. */
  lemma RefusedIff(s: State, x: RWHandle, fault: ReleaseRWFault)
    requires WritableInv(s) && x in s.rwRefs
    ensures x in s.rw
    ensures ReleaseRWResult(s, x, fault) == ActiveMount
       <==> s.rw[x].getsOk + s.rw[x].getsFailed > s.rw[x].putsOk + s.rw[x].putsFailed
  {
    assert OnMount(s.core.mounts, x) && Balanced(s.rw[x]);
  }

  /** Mounts that the driver made and did not take back. */
  function Outstanding(a: Activity): int {
    a.getsOk - a.putsOk
  }

  /** Failed Gets that no failed Put makes up for. */
  function Excess(a: Activity): int {
    a.getsFailed - a.putsFailed
  }

  /** A Get that fails in the driver is counted all the same: a handle that was balanced, with no mount
      outstanding, is then refused, and still is after another Get and Put. */
  lemma FailedMountPinsHandle(s: State, x: RWHandle, fault: ReleaseRWFault)
    requires WritableInv(s) && x in s.rwRefs && Outstanding(s.rw[x]) == Excess(s.rw[x]) == 0
    ensures var t := MountRW(s, x, false);
      && x in t.rw && Outstanding(t.rw[x]) == 0 && Excess(t.rw[x]) == 1
      && ReleaseRWResult(t, x, fault) == ActiveMount
      && forall ok: bool :: ReleaseRWResult(UnmountRW(MountRW(t, x, ok), x, ok), x, fault) == ActiveMount
  {
    assert OnMount(s.core.mounts, x) && Balanced(s.rw[x]);
  }
}
