/**
 Reference counting of the layer store over every run: the count of a layer is the number of
 handles, child layers, mounts and in-flight holds on it, so no panic of `releaseLayer` is reached.
 */
module LayerSafety {
  import opened ChainIds
  import opened LayerState

  // ----- The invariant -----

  ghost predicate Keyed(objs: map<Obj, RoLayer>, layerMap: map<string, Obj>) {
    forall c :: c in layerMap ==> layerMap[c] in objs && objs[layerMap[c]].chainID == c
  }

  ghost predicate ParentIn(objs: map<Obj, RoLayer>, layerMap: map<string, Obj>, p: Option<Obj>) {
    p.Some? ==> InMap(objs, layerMap, p.value)
  }

  ghost predicate ParentsIn(objs: map<Obj, RoLayer>, layerMap: map<string, Obj>) {
    forall o {:trigger objs[o].parent} :: InMap(objs, layerMap, o) ==> ParentIn(objs, layerMap, objs[o].parent)
  }

  ghost predicate HandlesIn(objs: map<Obj, RoLayer>, layerMap: map<string, Obj>, handles: set<Handle>) {
    forall h :: h in handles ==> InMap(objs, layerMap, h.obj)
  }

  ghost predicate MountsIn(objs: map<Obj, RoLayer>, layerMap: map<string, Obj>, mounts: map<string, Mount>) {
    forall n :: n in mounts ==> ParentIn(objs, layerMap, mounts[n].parent)
  }

  ghost predicate HoldsIn(objs: map<Obj, RoLayer>, layerMap: map<string, Obj>, procs: map<Pid, Proc>) {
    forall q :: q in procs ==> ParentIn(objs, layerMap, procs[q].Hold())
  }

  /** The map is keyed by ChainID and closed under parents, and every reference is to a layer in it. */
  ghost predicate Sound(k: Core) {
    && Wf(k)
    && Keyed(k.objs, k.layerMap)
    && ParentsIn(k.objs, k.layerMap)
    && HandlesIn(k.objs, k.layerMap, k.handles)
    && MountsIn(k.objs, k.layerMap, k.mounts)
    && HoldsIn(k.objs, k.layerMap, k.procs)
    && (forall h :: h in k.handles ==> h.id < k.nextId)
  }

  function One(p: Option<Obj>, o: Obj): nat {
    if p == Some(o) then 1 else 0
  }

  /** Counts are exact, but for one reference on `debt` that is given up and not yet uncounted. */
  ghost predicate Counted(k: Core, debt: Option<Obj>) {
    forall o :: InMap(k.objs, k.layerMap, o) ==>
      o in k.refCount && k.refCount[o] == References(k, o) + One(debt, o)
  }

  ghost predicate Good(k: Core, debt: Option<Obj>) {
    Sound(k) && Counted(k, debt)
  }

  /** What a release leaves alone. */
  ghost predicate SameReferences(k: Core, m: Core) {
    m == k.(layerMap := m.layerMap, refCount := m.refCount)
  }

  // ----- How the number of references of each kind changes -----

  function HoldOf(procs: map<Pid, Proc>, pid: Pid): Option<Obj> {
    if pid in procs then procs[pid].Hold() else None
  }

  lemma EndProcHolds(procs: map<Pid, Proc>, pid: Pid)
    ensures forall o: Obj :: |HoldsOn(procs - {pid}, o)| == |HoldsOn(procs, o)| - One(HoldOf(procs, pid), o)
  {
    forall o: Obj ensures |HoldsOn(procs - {pid}, o)| == |HoldsOn(procs, o)| - One(HoldOf(procs, pid), o) {
      var rest := HoldsOn(procs - {pid}, o);
      assert HoldsOn(procs, o) == rest + if HoldOf(procs, pid) == Some(o) then {pid} else {};
    }
  }

  lemma SetProcHolds(procs: map<Pid, Proc>, pid: Pid, pr: Proc)
    ensures forall o: Obj ::
      |HoldsOn(procs[pid := pr], o)| == |HoldsOn(procs, o)| - One(HoldOf(procs, pid), o) + One(pr.Hold(), o)
  {
    EndProcHolds(procs, pid);
    EndProcHolds(procs[pid := pr], pid);
    assert procs[pid := pr] - {pid} == procs - {pid};
  }

  lemma AddHandleOn(handles: set<Handle>, h: Handle)
    requires h !in handles
    ensures forall o: Obj :: |HandlesOn(handles + {h}, o)| == |HandlesOn(handles, o)| + One(Some(h.obj), o)
  {
    forall o: Obj ensures |HandlesOn(handles + {h}, o)| == |HandlesOn(handles, o)| + One(Some(h.obj), o) {
      assert HandlesOn(handles + {h}, o) == HandlesOn(handles, o) + if h.obj == o then {h} else {};
    }
  }

  lemma RemoveHandleOn(handles: set<Handle>, h: Handle)
    requires h in handles
    ensures forall o: Obj :: |HandlesOn(handles - {h}, o)| == |HandlesOn(handles, o)| - One(Some(h.obj), o)
  {
    AddHandleOn(handles - {h}, h);
    assert handles - {h} + {h} == handles;
  }

  lemma RemoveMountOn(mounts: map<string, Mount>, n: string)
    requires n in mounts
    ensures forall o: Obj :: |MountsOn(mounts - {n}, o)| == |MountsOn(mounts, o)| - One(mounts[n].parent, o)
  {
    forall o: Obj ensures |MountsOn(mounts - {n}, o)| == |MountsOn(mounts, o)| - One(mounts[n].parent, o) {
      var rest := MountsOn(mounts - {n}, o);
      assert MountsOn(mounts, o) == rest + if mounts[n].parent == Some(o) then {n} else {};
    }
  }

  lemma AddMountOn(mounts: map<string, Mount>, n: string, m: Mount)
    requires n !in mounts
    ensures forall o: Obj :: |MountsOn(mounts[n := m], o)| == |MountsOn(mounts, o)| + One(m.parent, o)
  {
    RemoveMountOn(mounts[n := m], n);
    assert mounts[n := m] - {n} == mounts;
  }

  // ----- Releasing -----

  lemma DropRefGood(k: Core, o: Obj)
    requires Good(k, Some(o)) && InMap(k.objs, k.layerMap, o)
    ensures Good(DropRef(k, o), None)
  {
    assert Sound(DropRef(k, o));
    assert Counted(DropRef(k, o), None);
  }

  lemma Unreferenced(k: Core, o: Obj)
    requires Sound(k) && References(k, o) == 0
    ensures forall h :: h in k.handles ==> h.obj != o
    ensures forall n :: n in k.mounts ==> k.mounts[n].parent != Some(o)
    ensures forall q :: q in k.procs ==> k.procs[q].Hold() != Some(o)
    ensures forall x :: InMap(k.objs, k.layerMap, x) ==> k.objs[x].parent != Some(o)
  {
    forall h | h in k.handles ensures h.obj != o { assert h !in HandlesOn(k.handles, o); }
    forall n | n in k.mounts ensures k.mounts[n].parent != Some(o) { assert n !in MountsOn(k.mounts, o); }
    forall q | q in k.procs ensures k.procs[q].Hold() != Some(o) { assert q !in HoldsOn(k.procs, o); }
    forall x | InMap(k.objs, k.layerMap, x) ensures k.objs[x].parent != Some(o) {
      assert k.objs[x].chainID !in ChildrenOf(k.objs, k.layerMap, o);
    }
  }

  lemma RemoveKeyMap(objs: map<Obj, RoLayer>, layerMap: map<string, Obj>, o: Obj)
    requires Keyed(objs, layerMap) && InMap(objs, layerMap, o)
    ensures forall x: Obj :: InMap(objs, layerMap - {objs[o].chainID}, x) <==> InMap(objs, layerMap, x) && x != o
    ensures forall x: Obj ::
      ChildrenOf(objs, layerMap - {objs[o].chainID}, x) == ChildrenOf(objs, layerMap, x) - {objs[o].chainID}
    ensures forall x: Obj :: objs[o].chainID in ChildrenOf(objs, layerMap, x) <==> objs[o].parent == Some(x)
  {
  }

  lemma RemoveLayerSound(k: Core, o: Obj)
    requires Sound(k) && InMap(k.objs, k.layerMap, o) && References(k, o) == 0
    ensures var m := RemoveLayer(k, o); Sound(m) && ParentIn(m.objs, m.layerMap, k.objs[o].parent)
  {
    Unreferenced(k, o);
    RemoveKeyMap(k.objs, k.layerMap, o);
  }

  /** A layer without references leaves; what it counted on its parent becomes the debt. */
  lemma RemoveLayerGood(k: Core, o: Obj)
    requires Good(k, None) && InMap(k.objs, k.layerMap, o) && k.refCount[o] == 0
    ensures var m := RemoveLayer(k, o);
            Good(m, k.objs[o].parent) && ParentIn(m.objs, m.layerMap, k.objs[o].parent)
  {
    RemoveLayerSound(k, o);
    RemoveKeyMap(k.objs, k.layerMap, o);
    assert Counted(RemoveLayer(k, o), k.objs[o].parent);
  }

  lemma LastReference(k: Core, o: Obj)
    requires Good(k, Some(o)) && InMap(k.objs, k.layerMap, o)
    ensures k.refCount[o] > 0
    ensures k.refCount[o] == 1 ==> HandlesOn(k.handles, o) == {} && References(k, o) == 0
  {
  }

  /** The turns that are left once no panic can occur. */
  lemma TurnCases(s: State, o: Obj, removed: seq<Metadata>, depth: nat, io: Faults)
    requires Wf(s.core) && o in s.core.objs && s.core.refCount[o] > 0
    requires depth > 0 ==> removed != []
    requires s.core.refCount[o] == 1 ==> HandlesOn(s.core.handles, o) == {}
    ensures var r, k, l := ReleaseTurn(s, o, removed, depth, io), DropRef(s.core, o), s.core.objs[o];
            && r.s == s.(core := r.s.core, disk := r.s.disk)
            && if s.core.refCount[o] == 1 && o !in io.driver && o !in io.meta
               then r.s.core == RemoveLayer(k, o) &&
                    (if l.parent.Some? then r.Climb? && r.parent == l.parent.value
                     else r.Stop? && r.result == Removed(removed + [MetadataOf(s.core.objs, o)]))
               else r.Stop? && r.s.core == k && (r.result == Removed(removed) || r.result == Failed)
  {
  }

  /** What one turn did to the map, and what it reports. */
  ghost predicate TurnEffect(s: State, o: Obj, removed: seq<Metadata>, r: Turn)
    requires Acyclic(s.core.objs) && o in s.core.objs
  {
    var left := s.core.layerMap - {s.core.objs[o].chainID};
    if r.Climb? then r.s.core.layerMap == left && s.core.objs[o].parent == Some(r.parent)
    else
      || (r.s.core.layerMap == s.core.layerMap && (r.result == Removed(removed) || r.result == Failed))
      || (r.s.core.layerMap == left && r.result == Removed(removed + [MetadataOf(s.core.objs, o)]))
  }

  /** One turn of the loop: it stops in a good state or moves the debt to the parent; it never panics. */
  lemma ReleaseTurnGood(s: State, o: Obj, removed: seq<Metadata>, depth: nat, io: Faults)
    requires Good(s.core, Some(o)) && InMap(s.core.objs, s.core.layerMap, o)
    requires depth > 0 ==> removed != []
    ensures var r := ReleaseTurn(s, o, removed, depth, io);
            && SameReferences(s.core, r.s.core) && r.s == s.(core := r.s.core, disk := r.s.disk)
            && TurnEffect(s, o, removed, r)
            && (r.Stop? ==> Good(r.s.core, None) && !r.result.Panic?)
            && (r.Climb? ==> Good(r.s.core, Some(r.parent)) && InMap(r.s.core.objs, r.s.core.layerMap, r.parent))
  {
    LastReference(s.core, o);
    TurnCases(s, o, removed, depth, io);
    DropRefGood(s.core, o);
    if s.core.refCount[o] == 1 && o !in io.driver && o !in io.meta {
      RemoveLayerGood(DropRef(s.core, o), o);
    }
  }

  lemma {:induction false} ReleaseLoopGood(s: State, o: Obj, removed: seq<Metadata>, depth: nat, io: Faults)
    requires Good(s.core, Some(o)) && InMap(s.core.objs, s.core.layerMap, o)
    requires depth > 0 ==> removed != []
    ensures var (t, res) := ReleaseLoop(s, o, removed, depth, io);
            && Good(t.core, None) && SameReferences(s.core, t.core) && !res.Panic?
            && t == s.(core := t.core, disk := t.disk)
    decreases o
  {
    ReleaseTurnGood(s, o, removed, depth, io);
    var r := ReleaseTurn(s, o, removed, depth, io);
    if r.Climb? {
      ReleaseLoopGood(r.s, r.parent, removed + [MetadataOf(s.core.objs, o)], depth + 1, io);
    }
  }

  // ----- References taken, handed over and given up -----

  lemma AddRefGood(k: Core, o: Obj)
    requires Good(k, None) && InMap(k.objs, k.layerMap, o)
    ensures Good(AddRef(k, o), Some(o))
  {
    assert Sound(AddRef(k, o));
    assert Counted(AddRef(k, o), Some(o));
  }

  lemma PayHoldGood(k: Core, pid: Pid, o: Obj, pr: Proc)
    requires Good(k, Some(o)) && InMap(k.objs, k.layerMap, o) && pid !in k.procs && pr.Hold() == Some(o)
    ensures Good(SetProc(k, pid, pr), None)
  {
    SetProcHolds(k.procs, pid, pr);
    assert Sound(SetProc(k, pid, pr));
    assert Counted(SetProc(k, pid, pr), None);
  }

  /** An operation takes a reference on `o` and records it in its process entry. */
  lemma HoldGood(k: Core, pid: Pid, o: Obj, pr: Proc)
    requires Good(k, None) && InMap(k.objs, k.layerMap, o) && pid !in k.procs && pr.Hold() == Some(o)
    ensures Good(SetProc(AddRef(k, o), pid, pr), None)
  {
    AddRefGood(k, o);
    PayHoldGood(AddRef(k, o), pid, o, pr);
  }

  /** A process entry is added or changed without its hold changing. */
  lemma SameHoldGood(k: Core, pid: Pid, pr: Proc)
    requires Good(k, None)
    requires pr.Hold() == HoldOf(k.procs, pid)
    ensures Good(SetProc(k, pid, pr), None)
  {
    SetProcHolds(k.procs, pid, pr);
    assert Sound(SetProc(k, pid, pr));
    assert Counted(SetProc(k, pid, pr), None);
  }

  /** Ending an operation leaves its hold as a debt. */
  lemma EndHoldGood(k: Core, pid: Pid)
    requires Good(k, None) && pid in k.procs
    ensures Good(EndProc(k, pid), k.procs[pid].Hold())
    ensures ParentIn(k.objs, k.layerMap, k.procs[pid].Hold())
  {
    EndProcHolds(k.procs, pid);
    assert Sound(EndProc(k, pid));
    assert Counted(EndProc(k, pid), k.procs[pid].Hold());
  }

  lemma UnwindGood(s: State, pid: Pid, parent: Option<Obj>, locked: bool)
    requires Good(s.core, None) && pid in s.core.procs && s.core.procs[pid].Hold() == parent
    ensures Good(Unwind(s, pid, parent, locked).core, None)
  {
    if parent.Some? {
      SameHoldGood(s.core, pid, Unwinding(parent.value, locked));
    } else {
      EndHoldGood(s.core, pid);
    }
  }

  lemma DropHandleGood(k: Core, h: Handle)
    requires Good(k, None) && h in k.handles
    ensures Good(DropReference(k, h), Some(h.obj))
  {
    RemoveHandleOn(k.handles, h);
    assert Sound(DropReference(k, h));
    assert Counted(DropReference(k, h), Some(h.obj));
  }

  lemma NewHandleSound(k: Core, o: Obj)
    requires Sound(k) && InMap(k.objs, k.layerMap, o)
    ensures Sound(GetReference(k, o)) && Handle(o, k.nextId) !in k.handles
  {
  }

  lemma NewHandleGood(k: Core, o: Obj)
    requires Good(k, Some(o)) && InMap(k.objs, k.layerMap, o)
    ensures Good(GetReference(k, o), None)
  {
    NewHandleSound(k, o);
    AddHandleOn(k.handles, Handle(o, k.nextId));
    assert Counted(GetReference(k, o), None);
  }

  lemma AddKeyMap(objs: map<Obj, RoLayer>, layerMap: map<string, Obj>, o: Obj, l: RoLayer)
    requires Keyed(objs, layerMap) && o !in objs && l.chainID !in layerMap
    ensures Keyed(objs[o := l], layerMap[l.chainID := o])
    ensures forall x: Obj :: InMap(objs[o := l], layerMap[l.chainID := o], x) <==> InMap(objs, layerMap, x) || x == o
  {
    var objs', map' := objs[o := l], layerMap[l.chainID := o];
    forall x: Obj ensures InMap(objs', map', x) <==> InMap(objs, layerMap, x) || x == o {
      if x != o && x in objs {
        assert objs'[x] == objs[x];
      }
    }
  }

  lemma AddKeyChildren(objs: map<Obj, RoLayer>, layerMap: map<string, Obj>, o: Obj, l: RoLayer, x: Obj)
    requires Keyed(objs, layerMap) && o !in objs && l.chainID !in layerMap
    ensures |ChildrenOf(objs[o := l], layerMap[l.chainID := o], x)|
         == |ChildrenOf(objs, layerMap, x)| + One(l.parent, x)
  {
    var objs', map' := objs[o := l], layerMap[l.chainID := o];
    forall c | c in map' ensures IsChild(objs', map', c, x)
        <==> IsChild(objs, layerMap, c, x) || (c == l.chainID && l.parent == Some(x)) {
    }
    assert ChildrenOf(objs', map', x) == ChildrenOf(objs, layerMap,
                                                    x) + if l.parent == Some(x) then {l.chainID} else {};
  }

  lemma AddLayerWf(k: Core, l: RoLayer)
    requires Wf(k) && ValidParent(k.objs, l.parent)
    ensures Wf(AddLayer(k, l))
  {
  }

  lemma AddLayerSound(k: Core, l: RoLayer)
    requires Sound(k) && ParentIn(k.objs, k.layerMap, l.parent) && l.chainID !in k.layerMap
    ensures var m := AddLayer(k, l); Sound(m) && InMap(m.objs, m.layerMap, k.nextObj)
  {
    AddLayerWf(k, l);
    AddKeyMap(k.objs, k.layerMap, k.nextObj, l);
  }

  lemma FreshUnreferenced(k: Core, o: Obj)
    requires Wf(k) && o !in k.objs
    ensures References(k, o) == 0
  {
    forall c | c in k.layerMap ensures !IsChild(k.objs, k.layerMap, c, o) {
      assert ValidParent(k.objs, k.objs[k.layerMap[c]].parent);
    }
    forall n | n in k.mounts ensures k.mounts[n].parent != Some(o) { assert ValidParent(k.objs, k.mounts[n].parent); }
    forall q | q in k.procs ensures k.procs[q].Hold() != Some(o) { assert ValidParent(k.objs, k.procs[q].Hold()); }
    assert HandlesOn(k.handles, o) == {} && ChildrenOf(k.objs, k.layerMap, o) == {};
    assert MountsOn(k.mounts, o) == {} && HoldsOn(k.procs, o) == {};
  }

  lemma AddLayerReferences(k: Core, l: RoLayer)
    requires Sound(k) && ValidParent(k.objs, l.parent) && l.chainID !in k.layerMap
    ensures forall x: Obj :: References(AddLayer(k, l), x) == References(k, x) + One(l.parent, x)
    ensures References(k, k.nextObj) == 0 && One(l.parent, k.nextObj) == 0
  {
    forall x: Obj ensures References(AddLayer(k, l), x) == References(k, x) + One(l.parent, x) {
      AddKeyChildren(k.objs, k.layerMap, k.nextObj, l, x);
    }
    FreshUnreferenced(k, k.nextObj);
  }

  /** A new layer turns the debt on its parent into a child reference and starts one reference short. */
  lemma AddLayerGood(k: Core, l: RoLayer)
    requires Good(k, l.parent) && ParentIn(k.objs, k.layerMap, l.parent) && l.chainID !in k.layerMap
    ensures var m := AddLayer(k, l); Good(m, Some(k.nextObj)) && InMap(m.objs, m.layerMap, k.nextObj)
  {
    AddLayerSound(k, l);
    AddLayerReferences(k, l);
    AddKeyMap(k.objs, k.layerMap, k.nextObj, l);
    assert Counted(AddLayer(k, l), Some(k.nextObj));
  }

  /** A mount takes over a reference. */
  lemma AddMountGood(k: Core, name: string, m: Mount)
    requires Good(k, m.parent) && ParentIn(k.objs, k.layerMap, m.parent) && name !in k.mounts
    ensures Good(AddMount(k, name, m), None)
  {
    AddMountOn(k.mounts, name, m);
    assert Sound(AddMount(k, name, m));
    assert Counted(AddMount(k, name, m), None);
  }

  lemma RemoveMountGood(k: Core, name: string)
    requires Good(k, None) && name in k.mounts
    ensures Good(RemoveMount(k, name), k.mounts[name].parent)
    ensures ParentIn(k.objs, k.layerMap, k.mounts[name].parent)
  {
    RemoveMountOn(k.mounts, name);
    assert Sound(RemoveMount(k, name));
    assert Counted(RemoveMount(k, name), k.mounts[name].parent);
  }

  // ----- The steps -----

  lemma CommitGood(s: State, pid: Pid, l: RoLayer, ok: bool)
    requires Good(s.core, None) && pid in s.core.procs && s.core.procs[pid] == RegisterStored(l)
    requires ValidParent(s.core.objs, l.parent)
    ensures Good(RegisterCommit(s, pid, l, ok).core, None)
  {
    var k, clean := s.core, RegisterCleaning(l.parent, l.cacheID);
    if l.chainID in k.layerMap {
      var o := k.layerMap[l.chainID];
      AddRefGood(k, o);
      NewHandleGood(AddRef(k, o), o);
      SameHoldGood(GetReference(AddRef(k, o), o), pid, clean);
    } else if !ok {
      SameHoldGood(k, pid, clean);
    } else {
      EndHoldGood(k, pid);
      AddLayerGood(EndProc(k, pid), l);
      NewHandleGood(AddLayer(EndProc(k, pid), l), k.nextObj);
    }
  }

  /** A mount hands its reference over to the operation that removes it. */
  lemma MountToHoldGood(k: Core, pid: Pid, name: string)
    requires Good(k, None) && pid !in k.procs && name in k.mounts
    ensures k.mounts[name].parent.None? ==> Good(RemoveMount(k, name), None)
    ensures k.mounts[name].parent.Some? ==>
      Good(SetProc(RemoveMount(k, name), pid, Unwinding(k.mounts[name].parent.value, true)), None)
  {
    RemoveMountGood(k, name);
    var p := k.mounts[name].parent;
    if p.Some? {
      PayHoldGood(RemoveMount(k, name), pid, p.value, Unwinding(p.value, true));
    }
  }

  lemma ReleaseRWGood(s: State, pid: Pid, h: RWHandle, fault: ReleaseRWFault)
    requires Good(s.core, None) && pid !in s.core.procs
    ensures Good(ReleaseRW(s, pid, h, fault).core, None)
  {
    if ReleaseRWResult(s, h, fault).MountRemoved? {
      MountToHoldGood(s.core, pid, h.name);
    }
  }

  /** `mountL` serialises the operations on mounts, so a name being created is not taken meanwhile. */
  ghost predicate Locked(procs: map<Pid, Proc>, mounts: map<string, Mount>, owner: Option<Pid>) {
    && (forall q :: q in procs && procs[q].HoldsMountLock() ==> owner == Some(q))
    && (forall q :: q in procs && procs[q].CreateHeld? ==> procs[q].name !in mounts)
  }

  ghost predicate Serial(s: State) {
    Locked(s.core.procs, s.core.mounts, s.mountOwner)
  }

  /** The invariant of the transition system. */
  ghost predicate Inv(s: State) {
    Good(s.core, None) && Serial(s) && !s.panicked
  }

  lemma CreateRWFinishGood(s: State, pid: Pid, mountID: string, initID: string, out: CreateRW)
    requires Inv(s) && pid in s.core.procs && s.core.procs[pid].CreateHeld?
    requires ValidParent(s.core.objs, s.core.procs[pid].parent)
    ensures Good(CreateRWFinish(s, pid, s.core.procs[pid].name, s.core.procs[pid].parent, mountID, initID, out).core,
                 None)
  {
    var name, parent := s.core.procs[pid].name, s.core.procs[pid].parent;
    var m := Mount(s.nextRW, mountID, initID, parent);
    if out.Saved? {
      EndHoldGood(s.core, pid);
      AddMountGood(EndProc(s.core, pid), name, m);
    } else {
      UnwindGood(s.(disk := CreateRWDisk(s.disk, s.core.objs, name, m, out)), pid, parent, true);
    }
  }

  lemma ReleaseLayerGood(s: State, o: Obj, io: Faults)
    requires Good(s.core, Some(o)) && InMap(s.core.objs, s.core.layerMap, o)
    ensures var (t, res) := ReleaseLayer(s, o, io);
            && Good(t.core, None) && SameReferences(s.core, t.core) && !res.Panic?
            && t == s.(core := t.core, disk := t.disk)
  {
    ReleaseLoopGood(s, o, [], 0, io);
  }

  lemma UnwindReleaseGood(s: State, pid: Pid, io: Faults)
    requires Good(s.core, None) && pid in s.core.procs && s.core.procs[pid].Unwinding?
    requires s.core.procs[pid].obj in s.core.objs
    ensures var t := UnwindRelease(s, pid, s.core.procs[pid].obj, s.core.procs[pid].mountLocked, io);
            && Good(t.core, None) && t.panicked == s.panicked
            && SameReferences(EndProc(s.core, pid), t.core)
            && t.mountOwner == if s.core.procs[pid].mountLocked then None else s.mountOwner
  {
    var p := s.core.procs[pid];
    EndHoldGood(s.core, pid);
    ReleaseLayerGood(s.(core := EndProc(s.core, pid), mountOwner := if p.mountLocked then None else s.mountOwner),
                     p.obj, io);
  }

  lemma ReleaseGood(s: State, h: Handle, io: Faults)
    requires Good(s.core, None) && h.obj in s.core.objs
    ensures var (t, out) := Release(s, h, io);
            && Good(t.core, None) && t == s.(core := t.core, disk := t.disk)
            && t.core.procs == s.core.procs && t.core.mounts == s.core.mounts
            && (out.Released? ==> !out.result.Panic?)
  {
    if h in s.core.handles && InMap(s.core.objs, s.core.layerMap, h.obj) {
      DropHandleGood(s.core, h);
      ReleaseLayerGood(s.(core := DropReference(s.core, h)), h.obj, io);
    }
  }

  lemma RegisterBeginGood(s: State, pid: Pid, parent: string, tar: string)
    requires Good(s.core, None) && pid !in s.core.procs
    ensures Good(RegisterBegin(s, pid, parent, tar).core, None)
  {
    var k := s.core;
    if parent == "" {
      SameHoldGood(k, pid, RegisterHeld(None, tar));
    } else if parent in k.layerMap {
      var p := k.layerMap[parent];
      var pr := if Depth(k.objs, p) >= MAX_LAYER_DEPTH then Unwinding(p, false) else RegisterHeld(Some(p), tar);
      assert pr.Hold() == Some(p) && InMap(k.objs, k.layerMap, p);
      HoldGood(k, pid, p, pr);
    }
  }

  lemma RegisterPrepareGood(s: State, pid: Pid, prep: Prepare)
    requires Good(s.core, None) && pid in s.core.procs && s.core.procs[pid].RegisterHeld?
    requires ValidParent(s.core.objs, s.core.procs[pid].parent)
    ensures Good(RegisterPrepare(s, pid, s.core.procs[pid].parent, s.core.procs[pid].tar, prep).core, None)
  {
    var k, parent := s.core, s.core.procs[pid].parent;
    match prep
    case CreateFailed => UnwindGood(s, pid, parent, false);
    case TransactionFailed(id) => UnwindGood(s.(disk := DriverAdd(s.disk, {id})), pid, parent, false);
    case FillFailed(id) => SameHoldGood(k, pid, RegisterCleaning(parent, id));
    case Prepared(id, size) =>
      SameHoldGood(k, pid, RegisterStored(NewLayer(s.digest, k.objs, parent, k.procs[pid].tar, id, size)));
  }

  lemma RegisterCleanupGood(s: State, pid: Pid, ok: bool)
    requires Good(s.core, None) && pid in s.core.procs && s.core.procs[pid].RegisterCleaning?
    ensures Good(RegisterCleanup(s, pid, s.core.procs[pid].parent, s.core.procs[pid].cacheID, ok).core, None)
  {
    var p := s.core.procs[pid];
    UnwindGood(if ok then s.(disk := DriverRemove(s.disk, p.cacheID)) else s, pid, p.parent, false);
  }

  lemma GetBeginGood(s: State, pid: Pid, chain: string)
    requires Good(s.core, None) && pid !in s.core.procs
    ensures Good(GetBegin(s, pid, chain).core, None)
  {
    if chain in s.core.layerMap {
      HoldGood(s.core, pid, s.core.layerMap[chain], GetHeld(s.core.layerMap[chain]));
    }
  }

  lemma GetFinishGood(s: State, pid: Pid)
    requires Good(s.core, None) && pid in s.core.procs && s.core.procs[pid].GetHeld?
    ensures Good(GetFinish(s, pid, s.core.procs[pid].obj).core, None)
  {
    EndHoldGood(s.core, pid);
    NewHandleGood(EndProc(s.core, pid), s.core.procs[pid].obj);
  }

  lemma CreateRWBeginGood(s: State, pid: Pid, name: string, parent: string)
    requires Good(s.core, None) && pid !in s.core.procs
    ensures Good(CreateRWBegin(s, pid, name, parent).core, None)
  {
    var k := s.core;
    if parent == "" {
      SameHoldGood(k, pid, CreateHeld(name, None));
    } else if parent in k.layerMap {
      HoldGood(k, pid, k.layerMap[parent], CreateHeld(name, Some(k.layerMap[parent])));
    }
  }

  lemma NextGood(s: State, e: Step)
    requires Inv(s) && Enabled(s, e)
    ensures Good(Next(s, e).core, None) && !Next(s, e).panicked
  {
    match e
    case SRegister(pid, parent, tar) => RegisterBeginGood(s, pid, parent, tar);
    case SPrepare(pid, prep) =>
      assert ValidParent(s.core.objs, s.core.procs[pid].Hold());
      RegisterPrepareGood(s, pid, prep);
    case SCommit(pid, ok) =>
      assert ValidParent(s.core.objs, s.core.procs[pid].Hold());
      CommitGood(s, pid, s.core.procs[pid].layer, ok);
    case SCleanup(pid, ok) => RegisterCleanupGood(s, pid, ok);
    case SUnwind(pid, io) =>
      assert ValidParent(s.core.objs, s.core.procs[pid].Hold());
      UnwindReleaseGood(s, pid, io);
    case SGet(pid, chain) => GetBeginGood(s, pid, chain);
    case SGetFinish(pid) => GetFinishGood(s, pid);
    case SRelease(h, io) => ReleaseGood(s, h, io);
    case SCreateRW(pid, name, parent) => CreateRWBeginGood(s, pid, name, parent);
    case SCreateRWFinish(pid, mountID, initID, out) =>
      assert ValidParent(s.core.objs, s.core.procs[pid].Hold());
      CreateRWFinishGood(s, pid, mountID, initID, out);
    case SReleaseRW(pid, h, fault) => ReleaseRWGood(s, pid, h, fault);
    case SGetRW(_) =>
    case SMount(_, _) =>
    case SUnmount(_, _) =>
  }

  lemma SetProcLocked(procs: map<Pid, Proc>, mounts: map<string, Mount>, owner: Option<Pid>, pid: Pid, pr: Proc)
    requires Locked(procs, mounts, owner)
    requires pr.HoldsMountLock() ==> owner == None || owner == Some(pid)
    requires pr.CreateHeld? ==> pr.name !in mounts
    ensures Locked(procs[pid := pr], mounts, if pr.HoldsMountLock() then Some(pid) else owner)
  {
  }

  lemma EndProcLocked(procs: map<Pid, Proc>, mounts: map<string, Mount>, owner: Option<Pid>, pid: Pid)
    requires Locked(procs, mounts, owner)
    ensures Locked(procs - {pid}, mounts, owner)
    ensures owner == Some(pid) ==> forall m: map<string, Mount> :: Locked(procs - {pid}, m, None)
  {
  }

  lemma UnwindLocked(s: State, pid: Pid, parent: Option<Obj>, locked: bool)
    requires Serial(s) && (locked ==> s.mountOwner == Some(pid))
    ensures Serial(Unwind(s, pid, parent, locked))
  {
    EndProcLocked(s.core.procs, s.core.mounts, s.mountOwner, pid);
    if parent.Some? {
      SetProcLocked(s.core.procs, s.core.mounts, s.mountOwner, pid, Unwinding(parent.value, locked));
    }
  }

  /** A step of process `pid` outside the mount lock, which ends or changes its entry only. */
  lemma OwnEntryLocked(s: State, t: State, pid: Pid)
    requires Serial(s)
    requires t.core.mounts == s.core.mounts && t.mountOwner == s.mountOwner
    requires || t.core.procs == s.core.procs || t.core.procs == s.core.procs - {pid}
             || (pid in t.core.procs && t.core.procs == s.core.procs[pid := t.core.procs[pid]]
                 && !t.core.procs[pid].HoldsMountLock())
    ensures Serial(t)
  {
  }

  lemma RegisterPrepareLocked(s: State, pid: Pid, parent: Option<Obj>, tar: string, prep: Prepare)
    requires Serial(s) && ValidParent(s.core.objs, parent)
    ensures Serial(RegisterPrepare(s, pid, parent, tar, prep))
  {
    OwnEntryLocked(s, RegisterPrepare(s, pid, parent, tar, prep), pid);
  }

  lemma RegisterCommitLocked(s: State, pid: Pid, l: RoLayer, ok: bool)
    requires Serial(s) && Wf(s.core) && ValidParent(s.core.objs, l.parent)
    ensures Serial(RegisterCommit(s, pid, l, ok))
  {
    OwnEntryLocked(s, RegisterCommit(s, pid, l, ok), pid);
  }

  lemma CreateRWFinishLocked(s: State, pid: Pid, p: Proc, mountID: string, initID: string, out: CreateRW)
    requires Serial(s)
    requires pid in s.core.procs && p == s.core.procs[pid] && p.CreateHeld? && ValidParent(s.core.objs, p.parent)
    ensures Serial(CreateRWFinish(s, pid, p.name, p.parent, mountID, initID, out))
  {
    EndProcLocked(s.core.procs, s.core.mounts, s.mountOwner, pid);
    if !out.Saved? {
      var m := Mount(s.nextRW, mountID, initID, p.parent);
      UnwindLocked(s.(disk := CreateRWDisk(s.disk, s.core.objs, p.name, m, out)), pid, p.parent, true);
    }
  }

  lemma ReleaseRWLocked(s: State, pid: Pid, h: RWHandle, fault: ReleaseRWFault)
    requires Serial(s) && s.mountOwner == None
    ensures Serial(ReleaseRW(s, pid, h, fault))
  {
    var mounts := s.core.mounts - {h.name};
    assert Locked(s.core.procs, mounts, s.mountOwner);
    if ReleaseRWResult(s, h, fault).MountRemoved? && s.core.mounts[h.name].parent.Some? {
      SetProcLocked(s.core.procs, mounts, None, pid, Unwinding(s.core.mounts[h.name].parent.value, true));
    }
  }

  lemma CreateRWBeginLocked(s: State, pid: Pid, name: string, parent: string)
    requires Wf(s.core) && Serial(s) && s.mountOwner == None
    ensures Serial(CreateRWBegin(s, pid, name, parent))
  {
    if name !in s.core.mounts && (parent == "" || parent in s.core.layerMap) {
      var p := if parent == "" then None else Some(s.core.layerMap[parent]);
      SetProcLocked(s.core.procs, s.core.mounts, None, pid, CreateHeld(name, p));
    }
  }

  lemma BeginLocked(s: State, pid: Pid, chain: string, tar: string)
    requires Wf(s.core) && Serial(s)
    ensures Serial(RegisterBegin(s, pid, chain, tar)) && Serial(GetBegin(s, pid, chain))
    ensures forall o :: Serial(GetFinish(s, pid, o))
  {
    OwnEntryLocked(s, RegisterBegin(s, pid, chain, tar), pid);
    OwnEntryLocked(s, GetBegin(s, pid, chain), pid);
    EndProcLocked(s.core.procs, s.core.mounts, s.mountOwner, pid);
  }

  lemma ReleasingLocked(s: State, e: Step)
    requires Inv(s) && Enabled(s, e) && (e.SUnwind? || e.SRelease?)
    ensures Serial(Next(s, e))
  {
    match e
    case SUnwind(pid, io) =>
      assert ValidParent(s.core.objs, s.core.procs[pid].Hold());
      UnwindReleaseGood(s, pid, io);
      EndProcLocked(s.core.procs, s.core.mounts, s.mountOwner, pid);
    case SRelease(h, io) => ReleaseGood(s, h, io);
  }

  lemma NextLocked(s: State, e: Step)
    requires Inv(s) && Enabled(s, e)
    ensures Serial(Next(s, e))
  {
    match e
    case SUnwind(_, _) => ReleasingLocked(s, e);
    case SRelease(_, _) => ReleasingLocked(s, e);
    case SCreateRW(pid, name, parent) => CreateRWBeginLocked(s, pid, name, parent);
    case SCreateRWFinish(pid, mountID, initID, out) =>
      assert ValidParent(s.core.objs, s.core.procs[pid].Hold());
      CreateRWFinishLocked(s, pid, s.core.procs[pid], mountID, initID, out);
    case SReleaseRW(pid, h, fault) => ReleaseRWLocked(s, pid, h, fault);
    case SRegister(pid, parent, tar) => BeginLocked(s, pid, parent, tar);
    case SPrepare(pid, prep) =>
      assert ValidParent(s.core.objs, s.core.procs[pid].Hold());
      RegisterPrepareLocked(s, pid, s.core.procs[pid].parent, s.core.procs[pid].tar, prep);
    case SCommit(pid, ok) =>
      assert ValidParent(s.core.objs, s.core.procs[pid].Hold());
      RegisterCommitLocked(s, pid, s.core.procs[pid].layer, ok);
    case SCleanup(pid, ok) =>
      var p := s.core.procs[pid];
      UnwindLocked(if ok then s.(disk := DriverRemove(s.disk, p.cacheID)) else s, pid, p.parent, false);
    case SGet(pid, chain) => BeginLocked(s, pid, chain, "");
    case SGetFinish(pid) => BeginLocked(s, pid, "", "");
    case SGetRW(_) =>
    case SMount(_, _) =>
    case SUnmount(_, _) =>
  }

  /** Every step keeps the invariant. */
  lemma NextInv(s: State, e: Step)
    requires Inv(s)
    ensures Inv(Next(s, e))
  {
    if Enabled(s, e) {
      NextGood(s, e);
      NextLocked(s, e);
    }
  }

  /** Steps that neither add nor remove a layer nor change a count. */
  predicate Quiet(e: Step) {
    || e.SPrepare? || e.SCleanup? || e.SGetFinish? || e.SCreateRWFinish?
    || e.SGetRW? || e.SReleaseRW? || e.SMount? || e.SUnmount?
  }

  lemma QuietSameLayers(s: State, e: Step)
    requires Wf(s.core) && Quiet(e)
    ensures SameLayers(s, Next(s, e))
  {
  }

  // ----- Runs -----

  /** The steps lead from `s` to `t`. */
  ghost predicate Reaches(s: State, steps: seq<Step>, t: State)
    decreases |steps|
  {
    if steps == [] then s == t else Wf(s.core) && Reaches(Next(s, steps[0]), steps[1..], t)
  }

  lemma InitInv(h: Digest)
    ensures Inv(Init(h))
  {
  }

  lemma {:induction false} RunInv(s: State, steps: seq<Step>, t: State)
    requires Inv(s) && Reaches(s, steps, t)
    ensures Inv(t)
    decreases |steps|
  {
    if steps != [] {
      NextInv(s, steps[0]);
      RunInv(Next(s, steps[0]), steps[1..], t);
    }
  }

  /** Any list of steps is a run: a step that is not enabled is skipped, none gets stuck. */
  lemma {:induction false} RunExists(s: State, steps: seq<Step>) returns (t: State)
    requires Inv(s)
    ensures Reaches(s, steps, t)
    decreases |steps|
  {
    if steps == [] {
      t := s;
    } else {
      NextInv(s, steps[0]);
      t := RunExists(Next(s, steps[0]), steps[1..]);
    }
  }

  /** Over every run from the empty store, whatever fails and however operations interleave, each
      layer in the map is counted exactly once for each handle, child, mount and hold, and no
      panic of `releaseLayer` is reached. */
  lemma CountsAreExact(h: Digest, steps: seq<Step>, t: State)
    requires Reaches(Init(h), steps, t)
    ensures Inv(t) && !t.panicked
    ensures var k := t.core; forall c :: c in k.layerMap ==>
      var o := k.layerMap[c];
      k.refCount[o] == |HandlesOn(k.handles, o)| + |ChildrenOf(k.objs, k.layerMap, o)|
                     + |MountsOn(k.mounts, o)| + |HoldsOn(k.procs, o)|
  {
    InitInv(h);
    RunInv(Init(h), steps, t);
    forall c | c in t.core.layerMap ensures InMap(t.core.objs, t.core.layerMap, t.core.layerMap[c]) {}
  }
}
