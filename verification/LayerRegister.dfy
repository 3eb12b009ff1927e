/**
 `Register` as one uninterrupted call, with its deferred clean-ups.
 */
module LayerRegister {
  import opened ChainIds
  import opened LayerState
  import opened LayerSafety
  import Steps = LayerState

  datatype RegisterResult = Registered(handle: Handle) | NoSuchParent | TooDeep | IOFailed

  /** The deferred release of the parent. */
  function GiveBack(s: State, p: Option<Obj>, io: Faults): (t: State)
    requires Wf(s.core) && ValidParent(s.core.objs, p)
    ensures Wf(t.core)
  {
    if p.Some? then Steps.ReleaseLayer(s, p.value, io).0 else s
  }

  function Hold(k: Core, p: Option<Obj>): Core
    requires p.Some? ==> p.value in k.refCount
  {
    if p.Some? then AddRef(k, p.value) else k
  }

  /** The last part of `Register`, entered with a hold on the parent of `l`. */
  function Commit(s: State, l: RoLayer, commitOk: bool, removeOk: bool, io: Faults): (State, RegisterResult)
    requires Wf(s.core) && ValidParent(s.core.objs, l.parent)
  {
    var k := s.core;
    var clean := if removeOk then DriverRemove(s.disk, l.cacheID) else s.disk;
    if l.chainID in k.layerMap then
      var o := k.layerMap[l.chainID];
      (GiveBack(s.(core := GetReference(AddRef(k, o), o), disk := clean), l.parent, io),
       Registered(Handle(o, k.nextId)))
    else if commitOk then
      (s.(core := GetReference(AddLayer(k, l), k.nextObj),
          disk := s.disk.(meta := s.disk.meta[l.chainID := MetaOf(k.objs, l)])),
       Registered(Handle(k.nextObj, k.nextId)))
    else (GiveBack(s.(disk := clean), l.parent, io), IOFailed)
  }

  /** The part of `Register` after the parent is held and its depth checked. */
  function Fill(s: State, p: Option<Obj>, tar: string, prep: Prepare, commitOk: bool, removeOk: bool, io: Faults)
    : (State, RegisterResult)
    requires Wf(s.core) && ValidParent(s.core.objs, p)
  {
    match prep
    case CreateFailed => (GiveBack(s, p, io), IOFailed)
    case TransactionFailed(id) => (GiveBack(s.(disk := DriverAdd(s.disk, {id})), p, io), IOFailed)
    case FillFailed(id) =>
      var d := DriverAdd(s.disk, {id});
      (GiveBack(s.(disk := if removeOk then DriverRemove(d, id) else d), p, io), IOFailed)
    case Prepared(id, size) =>
      Commit(s.(disk := DriverAdd(s.disk, {id})), NewLayer(s.digest, s.core.objs, p, tar, id, size), commitOk, removeOk,
             io)
  }

  function Register(s: State, parent: string, tar: string, prep: Prepare, commitOk: bool, removeOk: bool, io: Faults)
    : (State, RegisterResult)
    requires Wf(s.core)
  {
    var k := s.core;
    if parent != "" && parent !in k.layerMap then (s, NoSuchParent)
    else
      var p := if parent == "" then None else Some(k.layerMap[parent]);
      var t := s.(core := Hold(k, p));
      if p.Some? && Depth(k.objs, p.value) >= MAX_LAYER_DEPTH then (GiveBack(t, p, io), TooDeep)
      else Fill(t, p, tar, prep, commitOk, removeOk, io)
  }

  lemma HoldStays(s: State, p: Option<Obj>, io: Faults)
    requires Wf(s.core) && ValidParent(s.core.objs, p) && (p.Some? ==> s.core.refCount[p.value] > 1)
    ensures GiveBack(s, p, io) == s.(core := Dropped(s.core, p))
  {
  }

  /** A `Register` that fails leaves the layers and their counts as they were, provided something else
      refers to the parent; the driver is left as it was too, unless StartTransaction failed or the
      abandoned driver layer could not be removed, and then it keeps that one layer. */
  lemma FailedRegisterRestores(s: State, parent: string, tar: string, prep: Prepare, commitOk: bool, removeOk: bool,
                               io: Faults)
    requires Wf(s.core) && (parent in s.core.layerMap ==> s.core.refCount[s.core.layerMap[parent]] > 0)
    requires !prep.CreateFailed? ==> prep.cacheID !in s.disk.driver
    requires !Register(s, parent, tar, prep, commitOk, removeOk, io).1.Registered?
    ensures var (t, r) := Register(s, parent, tar, prep, commitOk, removeOk, io);
            t == s.(disk := s.disk.(driver := s.disk.driver +
              if r.IOFailed? && (prep.TransactionFailed? || (!prep.CreateFailed? && !removeOk))
              then {prep.cacheID} else {}))
  {
    var k := s.core;
    if parent == "" || parent in k.layerMap {
      var p := if parent == "" then None else Some(k.layerMap[parent]);
      var n := Hold(k, p);
      assert Dropped(n, p).refCount == k.refCount;
      HoldStays(s.(core := n), p, io);
      if p.None? || Depth(k.objs, p.value) < MAX_LAYER_DEPTH {
        FailedFillRestores(s.(core := n), p, tar, prep, commitOk, removeOk, io);
      }
    }
    assert s.disk.driver + {} == s.disk.driver;
  }

  function Dropped(k: Core, p: Option<Obj>): Core
    requires p.Some? ==> p.value in k.refCount
  {
    if p.Some? then DropRef(k, p.value) else k
  }

  lemma FailedFillRestores(s: State, p: Option<Obj>, tar: string, prep: Prepare, commitOk: bool, removeOk: bool,
                           io: Faults)
    requires Wf(s.core) && ValidParent(s.core.objs, p) && (p.Some? ==> s.core.refCount[p.value] > 1)
    requires !prep.CreateFailed? ==> prep.cacheID !in s.disk.driver
    requires !Fill(s, p, tar, prep, commitOk, removeOk, io).1.Registered?
    ensures var (t, r) := Fill(s, p, tar, prep, commitOk, removeOk, io);
            r.IOFailed? && t == s.(core := Dropped(s.core, p), disk := s.disk.(driver := s.disk.driver +
              if prep.TransactionFailed? || (!prep.CreateFailed? && !removeOk) then {prep.cacheID} else {}))
  {
    HoldStays(s, p, io);
    assert s.disk.driver + {} == s.disk.driver;
    if !prep.CreateFailed? {
      var e := DriverAdd(s.disk, {prep.cacheID});
      HoldStays(s.(disk := e), p, io);
      HoldStays(s.(disk := DriverRemove(e, prep.cacheID)), p, io);
      assert DriverRemove(e, prep.cacheID) == s.disk;
    }
  }

  /** The parent a call of `Register` gets hold of. */
  function ParentOf(k: Core, parent: string): Option<Obj> {
    if parent == "" || parent !in k.layerMap then None else Some(k.layerMap[parent])
  }

  /** A call that fails has done nothing but give back its hold on the parent, apart from driver layers. */
  lemma FailedOnlyGivesBack(s: State, parent: string, tar: string, prep: Prepare, commitOk: bool, removeOk: bool,
                            io: Faults)
    returns (u: State)
    requires Wf(s.core) && !Register(s, parent, tar, prep, commitOk, removeOk, io).1.Registered?
    ensures var p := ParentOf(s.core, parent);
      && ValidParent(s.core.objs, p) && Wf(u.core) && u.core == Hold(s.core, p) && u.disk.meta == s.disk.meta
      && Register(s, parent, tar, prep, commitOk, removeOk, io).0 == GiveBack(u, p, io)
  {
    var p := ParentOf(s.core, parent);
    var t := s.(core := Hold(s.core, p));
    u := t;
    if (parent == "" || p.Some?) && (p.None? || Depth(s.core.objs, p.value) < MAX_LAYER_DEPTH) {
      u := FailedFillGivesBack(t, p, tar, prep, commitOk, removeOk, io);
    }
  }

  lemma FailedFillGivesBack(t: State, p: Option<Obj>, tar: string, prep: Prepare, commitOk: bool, removeOk: bool,
                            io: Faults)
    returns (u: State)
    requires Wf(t.core) && ValidParent(t.core.objs, p) && !Fill(t, p, tar, prep, commitOk, removeOk, io).1.Registered?
    ensures u.core == t.core && u.disk.meta == t.disk.meta
    ensures Fill(t, p, tar, prep, commitOk, removeOk, io).0 == GiveBack(u, p, io)
  {
    u := t;
    if !prep.CreateFailed? {
      var d := DriverAdd(t.disk, {prep.cacheID});
      u := t.(disk := if removeOk && !prep.TransactionFailed? then DriverRemove(d, prep.cacheID) else d);
    }
  }

  /** Giving back the only reference to a layer: it goes, unless its removal fails, and then it stays as
      it was before the reference was taken. */
  lemma OnlyReferenceGivenBack(s: State, o: Obj, io: Faults)
    requires Good(s.core, Some(o)) && InMap(s.core.objs, s.core.layerMap, o) && s.core.refCount[o] == 1
    ensures var t := GiveBack(s, Some(o), io);
      if o in io.driver || o in io.meta then t.core == DropRef(s.core, o) && t.disk.meta == s.disk.meta
      else s.core.objs[o].chainID !in t.core.layerMap
  {
    NoHandlesLeft(s.core, o);
    var r := ReleaseTurn(s, o, [], 0, io);
    if o !in io.driver && o !in io.meta {
      assert r.s.core.layerMap == RemoveLayer(s.core, o).layerMap;
      if r.Climb? {
        ShrinksOnly(r.s, r.parent, [] + [MetadataOf(s.core.objs, o)], 1, io);
      }
    }
  }

  /** Whether the clean-up of a failed `Register` leaves the parent alone: there is none, something else
      refers to it, or its removal fails once more. */
  predicate ParentStays(k: Core, parent: string, io: Faults)
    requires Wf(k)
  {
    var p := ParentOf(k, parent);
    p.None? || k.refCount[p.value] > 0 || p.value in io.driver || p.value in io.meta
  }

  /** A `Register` that fails, in whatever way, leaves layers, handles, counts and metadata as they were
      exactly if the clean-up leaves the parent alone.  Otherwise the parent is one that lingers in the
      map, unreferenced because its removal had failed before, and the clean-up takes it out. */
  lemma FailedRegisterRestoresIff(s: State, parent: string, tar: string, prep: Prepare, commitOk: bool, removeOk: bool,
                                  io: Faults)
    requires Good(s.core, None) && !Register(s, parent, tar, prep, commitOk, removeOk, io).1.Registered?
    ensures var t := Register(s, parent, tar, prep, commitOk, removeOk, io).0;
      && (t.core == s.core && t.disk.meta == s.disk.meta <==> ParentStays(s.core, parent, io))
      && (!ParentStays(s.core, parent, io) ==> parent !in t.core.layerMap)
  {
    var u := FailedOnlyGivesBack(s, parent, tar, prep, commitOk, removeOk, io);
    var p := ParentOf(s.core, parent);
    if p.Some? {
      CountNotNegative(s.core, p.value);
      GivenBackIff(s, u, p.value, io);
    }
  }

  lemma AddDrop(k: Core, p: Obj)
    requires p in k.refCount
    ensures DropRef(AddRef(k, p), p) == k
  {
    assert DropRef(AddRef(k, p), p).refCount == k.refCount;
  }

  lemma CountedGivenBack(k: Core, u: State, p: Obj, io: Faults)
    requires Wf(k) && Wf(u.core) && p in k.objs && k.refCount[p] > 0 && u.core == AddRef(k, p)
    ensures GiveBack(u, Some(p), io) == u.(core := k)
  {
    AddDrop(k, p);
    HoldStays(u, Some(p), io);
  }

  lemma LingeringGivenBack(k: Core, u: State, p: Obj, io: Faults)
    requires Good(k, None) && Wf(u.core) && InMap(k.objs, k.layerMap, p) && k.refCount[p] == 0 && u.core == AddRef(k, p)
    ensures var t := GiveBack(u, Some(p), io);
      if p in io.driver || p in io.meta then t.core == k && t.disk.meta == u.disk.meta
      else k.objs[p].chainID !in t.core.layerMap
  {
    AddDrop(k, p);
    AddRefGood(k, p);
    OnlyReferenceGivenBack(u, p, io);
  }

  lemma GivenBackIff(s: State, u: State, p: Obj, io: Faults)
    requires Good(s.core, None) && Wf(u.core) && InMap(s.core.objs, s.core.layerMap, p) && u.core == AddRef(s.core, p)
    requires u.disk.meta == s.disk.meta && s.core.refCount[p] >= 0
    ensures var t := GiveBack(u, Some(p), io);
      if s.core.refCount[p] > 0 || p in io.driver || p in io.meta then t.core == s.core && t.disk.meta == s.disk.meta
      else s.core.objs[p].chainID !in t.core.layerMap
  {
    if s.core.refCount[p] > 0 {
      CountedGivenBack(s.core, u, p, io);
    } else {
      LingeringGivenBack(s.core, u, p, io);
    }
  }

  lemma CountNotNegative(k: Core, p: Obj)
    requires Good(k, None) && InMap(k.objs, k.layerMap, p)
    ensures k.refCount[p] >= 0
  {
    assert k.refCount[p] == References(k, p) + One(None, p);
  }

  lemma NoHandlesLeft(k: Core, o: Obj)
    requires Good(k, Some(o)) && InMap(k.objs, k.layerMap, o) && k.refCount[o] == 1
    ensures HandlesOn(k.handles, o) == {}
  {
    assert k.refCount[o] == References(k, o) + One(Some(o), o);
  }

  lemma {:induction false} ShrinksOnly(s: State, o: Obj, removed: seq<Metadata>, depth: nat, io: Faults)
    requires Wf(s.core) && o in s.core.objs
    ensures forall c :: c in ReleaseLoop(s, o, removed, depth, io).0.core.layerMap ==> c in s.core.layerMap
    decreases o
  {
    var r := ReleaseTurn(s, o, removed, depth, io);
    if r.Climb? {
      ShrinksOnly(r.s, r.parent, removed + [MetadataOf(s.core.objs, o)], depth + 1, io);
    }
  }

  // ----- A call is a run of its steps -----

  function Busy(s: State, pid: Pid, pr: Proc): State {
    s.(core := SetProc(s.core, pid, pr))
  }

  lemma BusyWf(s: State, pid: Pid, pr: Proc)
    requires Wf(s.core) && ValidParent(s.core.objs, pr.Hold())
    ensures Wf(Busy(s, pid, pr).core)
  {
  }

  lemma BusyEnds(s: State, pid: Pid, pr: Proc)
    requires pid !in s.core.procs
    ensures EndProc(SetProc(s.core, pid, pr), pid) == s.core
    ensures forall qr :: SetProc(SetProc(s.core, pid, pr), pid, qr) == SetProc(s.core, pid, qr)
  {
    assert s.core.procs[pid := pr] - {pid} == s.core.procs;
  }

  /** The state after the deferred clean-up has been set off. */
  function Winding(s: State, pid: Pid, p: Option<Obj>): State {
    if p.Some? then Busy(s, pid, Unwinding(p.value, false)) else s
  }

  lemma WindingUnwinds(s: State, pid: Pid, p: Option<Obj>, io: Faults)
    requires Wf(s.core) && ValidParent(s.core.objs, p) && pid !in s.core.procs
    ensures Wf(Winding(s, pid, p).core)
    ensures Next(Winding(s, pid, p), SUnwind(pid, io)) == GiveBack(s, p, io)
  {
    if p.Some? {
      BusyWf(s, pid, Unwinding(p.value, false));
      BusyEnds(s, pid, Unwinding(p.value, false));
    }
  }

  lemma UnwindWinds(s: State, pid: Pid, pr: Proc, p: Option<Obj>)
    requires pid !in s.core.procs
    ensures Unwind(Busy(s, pid, pr), pid, p, false) == Winding(s, pid, p)
  {
    BusyEnds(s, pid, pr);
  }

  lemma CleaningRun(s: State, pid: Pid, p: Option<Obj>, cacheID: string, removeOk: bool, io: Faults)
    requires Wf(s.core) && ValidParent(s.core.objs, p) && pid !in s.core.procs
    ensures var d := if removeOk then DriverRemove(s.disk, cacheID) else s.disk;
            Reaches(Busy(s, pid, RegisterCleaning(p, cacheID)), [SCleanup(pid, removeOk), SUnwind(pid, io)],
                    GiveBack(s.(disk := d), p, io))
  {
    var pr := RegisterCleaning(p, cacheID);
    var t := s.(disk := if removeOk then DriverRemove(s.disk, cacheID) else s.disk);
    BusyWf(s, pid, pr);
    UnwindWinds(t, pid, pr, p);
    assert Next(Busy(s, pid, pr), SCleanup(pid, removeOk)) == Winding(t, pid, p);
    WindingUnwinds(t, pid, p, io);
    TwoSteps(Busy(s, pid, pr), SCleanup(pid, removeOk), SUnwind(pid, io));
  }

  lemma TwoSteps(s: State, a: Step, b: Step)
    requires Wf(s.core) && Wf(Next(s, a).core)
    ensures Reaches(s, [a, b], Next(Next(s, a), b))
  {
    assert [a, b][1..] == [b] && [b][1..] == [];
    assert Reaches(Next(Next(s, a), b), [], Next(Next(s, a), b));
    assert Reaches(Next(s, a), [b], Next(Next(s, a), b));
  }

  lemma StepRun(s: State, e: Step, rest: seq<Step>, t: State)
    requires Wf(s.core) && Reaches(Next(s, e), rest, t)
    ensures Reaches(s, [e] + rest, t)
  {
    assert ([e] + rest)[1..] == rest;
  }

  /** The steps that are left once the archive has been dealt with. */
  function Rest(pid: Pid, commitOk: bool, removeOk: bool, io: Faults): seq<Step> {
    [SCommit(pid, commitOk)] + [SCleanup(pid, removeOk), SUnwind(pid, io)]
  }

  /** A commit that has to be cleaned up after, with the handle on the layer that was there before. */
  lemma CommitCleans(s: State, t: State, pid: Pid, l: RoLayer, commitOk: bool)
    requires Wf(s.core) && ValidParent(s.core.objs, l.parent) && pid !in s.core.procs
    requires var k := s.core;
             if l.chainID in k.layerMap then
               var o := k.layerMap[l.chainID]; t == s.(core := GetReference(AddRef(k, o), o))
             else !commitOk && t == s
    ensures Wf(Busy(s, pid, RegisterStored(l)).core) && Wf(t.core)
    ensures Next(Busy(s, pid, RegisterStored(l)), SCommit(pid, commitOk))
         == Busy(t, pid, RegisterCleaning(l.parent, l.cacheID))
  {
    BusyWf(s, pid, RegisterStored(l));
    BusyEnds(s, pid, RegisterStored(l));
  }

  lemma CommitStores(s: State, pid: Pid, l: RoLayer)
    requires Wf(s.core) && ValidParent(s.core.objs, l.parent) && pid !in s.core.procs && l.chainID !in s.core.layerMap
    ensures var b, e, k := Busy(s, pid, RegisterStored(l)), SCommit(pid, true), s.core;
      && Wf(b.core) && Wf(Next(b, e).core) && pid !in Next(b, e).core.procs
      && Next(b, e) == s.(core := GetReference(AddLayer(k, l), k.nextObj),
                          disk := s.disk.(meta := s.disk.meta[l.chainID := MetaOf(k.objs, l)]))
  {
    BusyWf(s, pid, RegisterStored(l));
    BusyEnds(s, pid, RegisterStored(l));
    AddLayerWf(s.core, l);
  }

  lemma OverRun(s: State, pid: Pid, removeOk: bool, io: Faults)
    requires Wf(s.core) && pid !in s.core.procs
    ensures Reaches(s, [SCleanup(pid, removeOk), SUnwind(pid, io)], s)
  {
    TwoSteps(s, SCleanup(pid, removeOk), SUnwind(pid, io));
  }

  lemma CommitRun(s: State, pid: Pid, l: RoLayer, commitOk: bool, removeOk: bool, io: Faults)
    requires Wf(s.core) && ValidParent(s.core.objs, l.parent) && pid !in s.core.procs
    ensures Reaches(Busy(s, pid, RegisterStored(l)), Rest(pid, commitOk, removeOk, io),
                    Commit(s, l, commitOk, removeOk, io).0)
  {
    var b, k := Busy(s, pid, RegisterStored(l)), s.core;
    var t := s;
    if l.chainID in k.layerMap || !commitOk {
      if l.chainID in k.layerMap {
        var o := k.layerMap[l.chainID];
        t := s.(core := GetReference(AddRef(k, o), o));
      }
      CommitCleans(s, t, pid, l, commitOk);
      CleaningRun(t, pid, l.parent, l.cacheID, removeOk, io);
    } else {
      CommitStores(s, pid, l);
      OverRun(Next(b, SCommit(pid, true)), pid, removeOk, io);
    }
    StepRun(b, SCommit(pid, commitOk), [SCleanup(pid, removeOk), SUnwind(pid, io)],
            Commit(s, l, commitOk, removeOk, io).0);
  }

  /** Where the call stands after the driver and the archive have been dealt with. */
  function AfterPrepare(s: State, pid: Pid, p: Option<Obj>, tar: string, prep: Prepare): State
    requires ValidParent(s.core.objs, p)
  {
    var d := if prep.CreateFailed? then s else s.(disk := DriverAdd(s.disk, {prep.cacheID}));
    match prep
    case CreateFailed => Winding(d, pid, p)
    case TransactionFailed(_) => Winding(d, pid, p)
    case FillFailed(id) => Busy(d, pid, RegisterCleaning(p, id))
    case Prepared(id, size) => Busy(d, pid, RegisterStored(NewLayer(s.digest, s.core.objs, p, tar, id, size)))
  }

  lemma PrepareStep(s: State, pid: Pid, p: Option<Obj>, tar: string, prep: Prepare)
    requires Wf(s.core) && ValidParent(s.core.objs, p) && pid !in s.core.procs
    ensures Wf(Busy(s, pid, RegisterHeld(p, tar)).core)
    ensures Next(Busy(s, pid, RegisterHeld(p, tar)), SPrepare(pid, prep)) == AfterPrepare(s, pid, p, tar, prep)
  {
    var pr := RegisterHeld(p, tar);
    BusyWf(s, pid, pr);
    BusyEnds(s, pid, pr);
    UnwindWinds(if prep.CreateFailed? then s else s.(disk := DriverAdd(s.disk, {prep.cacheID})), pid, pr, p);
  }

  lemma WindingRun(s: State, pid: Pid, p: Option<Obj>, commitOk: bool, removeOk: bool, io: Faults)
    requires Wf(s.core) && ValidParent(s.core.objs, p) && pid !in s.core.procs
    ensures Reaches(Winding(s, pid, p), Rest(pid, commitOk, removeOk, io), GiveBack(s, p, io))
  {
    WindingUnwinds(s, pid, p, io);
    var w, rest := Winding(s, pid, p), [SCleanup(pid, removeOk), SUnwind(pid, io)];
    TwoSteps(w, rest[0], rest[1]);
    StepRun(w, SCommit(pid, commitOk), rest, GiveBack(s, p, io));
  }

  lemma FillFailedRun(s: State, pid: Pid, p: Option<Obj>, cacheID: string, commitOk: bool, removeOk: bool, io: Faults)
    requires Wf(s.core) && ValidParent(s.core.objs, p) && pid !in s.core.procs
    ensures var d := if removeOk then DriverRemove(s.disk, cacheID) else s.disk;
            Reaches(Busy(s, pid, RegisterCleaning(p, cacheID)), Rest(pid, commitOk, removeOk, io),
                    GiveBack(s.(disk := d), p, io))
  {
    var d := if removeOk then DriverRemove(s.disk, cacheID) else s.disk;
    var b := Busy(s, pid, RegisterCleaning(p, cacheID));
    BusyWf(s, pid, RegisterCleaning(p, cacheID));
    CleaningRun(s, pid, p, cacheID, removeOk, io);
    StepRun(b, SCommit(pid, commitOk), [SCleanup(pid, removeOk), SUnwind(pid, io)], GiveBack(s.(disk := d), p, io));
  }

  lemma FillRun(s: State, pid: Pid, p: Option<Obj>, tar: string, prep: Prepare, commitOk: bool, removeOk: bool,
                io: Faults)
    requires Wf(s.core) && ValidParent(s.core.objs, p) && pid !in s.core.procs
    ensures Reaches(AfterPrepare(s, pid, p, tar, prep), Rest(pid, commitOk, removeOk, io),
                    Fill(s, p, tar, prep, commitOk, removeOk, io).0)
  {
    var d := if prep.CreateFailed? then s else s.(disk := DriverAdd(s.disk, {prep.cacheID}));
    match prep {
      case CreateFailed => WindingRun(s, pid, p, commitOk, removeOk, io);
      case TransactionFailed(_) => WindingRun(d, pid, p, commitOk, removeOk, io);
      case FillFailed(id) => FillFailedRun(d, pid, p, id, commitOk, removeOk, io);
      case Prepared(id, size) => CommitRun(d, pid, NewLayer(s.digest, s.core.objs, p, tar, id, size), commitOk,
                                           removeOk, io);
    }
  }

  lemma UnknownParentRun(s: State, pid: Pid, prep: Prepare, commitOk: bool, removeOk: bool, io: Faults)
    requires Wf(s.core) && pid !in s.core.procs
    ensures Reaches(s, [SPrepare(pid, prep)] + Rest(pid, commitOk, removeOk, io), s)
  {
    OverRun(s, pid, removeOk, io);
    StepRun(s, SCommit(pid, commitOk), [SCleanup(pid, removeOk), SUnwind(pid, io)], s);
    StepRun(s, SPrepare(pid, prep), Rest(pid, commitOk, removeOk, io), s);
  }

  lemma TooDeepRun(s: State, pid: Pid, p: Obj, prep: Prepare, commitOk: bool, removeOk: bool, io: Faults)
    requires Wf(s.core) && p in s.core.objs && pid !in s.core.procs
    ensures Reaches(Winding(s, pid, Some(p)), [SPrepare(pid, prep)] + Rest(pid, commitOk, removeOk, io),
                    GiveBack(s, Some(p), io))
  {
    WindingRun(s, pid, Some(p), commitOk, removeOk, io);
    WindingUnwinds(s, pid, Some(p), io);
    StepRun(Winding(s, pid, Some(p)), SPrepare(pid, prep), Rest(pid, commitOk, removeOk, io), GiveBack(s, Some(p), io));
  }

  lemma HeldRun(s: State, pid: Pid, p: Option<Obj>, tar: string, prep: Prepare, commitOk: bool, removeOk: bool,
                io: Faults)
    requires Wf(s.core) && ValidParent(s.core.objs, p) && pid !in s.core.procs
    ensures Reaches(Busy(s, pid, RegisterHeld(p, tar)), [SPrepare(pid, prep)] + Rest(pid, commitOk, removeOk, io),
                    Fill(s, p, tar, prep, commitOk, removeOk, io).0)
  {
    PrepareStep(s, pid, p, tar, prep);
    FillRun(s, pid, p, tar, prep, commitOk, removeOk, io);
    StepRun(Busy(s, pid, RegisterHeld(p, tar)), SPrepare(pid, prep), Rest(pid, commitOk, removeOk, io),
            Fill(s, p, tar, prep, commitOk, removeOk, io).0);
  }

  /** The first step: the parent is held, or the call is over, or about to give the parent back. */
  lemma BeginStep(s: State, pid: Pid, parent: string, tar: string)
    requires Wf(s.core) && pid !in s.core.procs && (parent == "" || parent in s.core.layerMap)
    ensures var p := if parent == "" then None else Some(s.core.layerMap[parent]);
      && Wf(Hold(s.core, p)) && ValidParent(s.core.objs, p)
      && var u := s.(core := Hold(s.core, p));
         Next(s, SRegister(pid, parent, tar)) ==
           if p.Some? && Depth(s.core.objs, p.value) >= MAX_LAYER_DEPTH then Winding(u, pid, p)
           else Busy(u, pid, RegisterHeld(p, tar))
  {
  }

  lemma BegunRun(s: State, pid: Pid, parent: string, tar: string, prep: Prepare, commitOk: bool, removeOk: bool,
                 io: Faults)
    requires Wf(s.core) && pid !in s.core.procs
    ensures Reaches(Next(s, SRegister(pid, parent, tar)), [SPrepare(pid, prep)] + Rest(pid, commitOk, removeOk, io),
                    Register(s, parent, tar, prep, commitOk, removeOk, io).0)
  {
    if parent != "" && parent !in s.core.layerMap {
      UnknownParentRun(s, pid, prep, commitOk, removeOk, io);
    } else {
      BeginStep(s, pid, parent, tar);
      var p := if parent == "" then None else Some(s.core.layerMap[parent]);
      var u := s.(core := Hold(s.core, p));
      if p.Some? && Depth(s.core.objs, p.value) >= MAX_LAYER_DEPTH {
        TooDeepRun(u, pid, p.value, prep, commitOk, removeOk, io);
      } else {
        HeldRun(u, pid, p, tar, prep, commitOk, removeOk, io);
      }
    }
  }

  /** A call of `Register` without interruption is the run of its five steps, the last of them skipped
      where the call is over before: what holds over all runs holds of it. */
  lemma RegisterIsRun(s: State, pid: Pid, parent: string, tar: string, prep: Prepare, commitOk: bool, removeOk: bool,
                      io: Faults)
    requires Wf(s.core) && pid !in s.core.procs
    ensures Reaches(s, [SRegister(pid, parent, tar)] + ([SPrepare(pid, prep)] + Rest(pid, commitOk, removeOk, io)),
                    Register(s, parent, tar, prep, commitOk, removeOk, io).0)
  {
    BegunRun(s, pid, parent, tar, prep, commitOk, removeOk, io);
    StepRun(s, SRegister(pid, parent, tar), [SPrepare(pid, prep)] + Rest(pid, commitOk, removeOk, io),
            Register(s, parent, tar, prep, commitOk, removeOk, io).0);
  }

  lemma {:induction false} FreshPid(pids: set<Pid>) returns (pid: Pid)
    ensures forall q :: q in pids ==> q < pid
  {
    if pids == {} {
      pid := 0;
    } else {
      var q :| q in pids;
      var r := FreshPid(pids - {q});
      pid := if r > q then r else q + 1;
      forall x | x in pids ensures x < pid {
        assert x == q || x in pids - {q};
      }
    }
  }

  /** So an uninterrupted call keeps the invariant of the transition system. */
  lemma RegisterInv(s: State, parent: string, tar: string, prep: Prepare, commitOk: bool, removeOk: bool, io: Faults)
    requires Inv(s)
    ensures Inv(Register(s, parent, tar, prep, commitOk, removeOk, io).0)
  {
    var pid := FreshPid(s.core.procs.Keys);
    RegisterIsRun(s, pid, parent, tar, prep, commitOk, removeOk, io);
    RunInv(s, [SRegister(pid, parent, tar)] + ([SPrepare(pid, prep)] + Rest(pid, commitOk, removeOk, io)),
           Register(s, parent, tar, prep, commitOk, removeOk, io).0);
  }

  /** An uninterrupted `Get`. */
  function Get(s: State, chain: string): (State, Option<Handle>)
    requires Wf(s.core)
  {
    if chain !in s.core.layerMap then (s, None)
    else
      var o := s.core.layerMap[chain];
      (s.(core := GetReference(AddRef(s.core, o), o)), Some(Handle(o, s.core.nextId)))
  }

  lemma GetIsRun(s: State, pid: Pid, chain: string)
    requires Wf(s.core) && pid !in s.core.procs
    ensures Reaches(s, [SGet(pid, chain), SGetFinish(pid)], Get(s, chain).0)
  {
    if chain in s.core.layerMap {
      var o := s.core.layerMap[chain];
      var t := s.(core := AddRef(s.core, o));
      BusyWf(t, pid, GetHeld(o));
      BusyEnds(t, pid, GetHeld(o));
    }
    TwoSteps(s, SGet(pid, chain), SGetFinish(pid));
  }

  lemma GetInv(s: State, chain: string)
    requires Inv(s)
    ensures Inv(Get(s, chain).0)
  {
    var pid := FreshPid(s.core.procs.Keys);
    GetIsRun(s, pid, chain);
    RunInv(s, [SGet(pid, chain), SGetFinish(pid)], Get(s, chain).0);
  }

  lemma ReleaseInv(s: State, h: Handle, io: Faults)
    requires Inv(s) && h.obj in s.core.objs
    ensures Inv(Release(s, h, io).0)
  {
    ReleaseGood(s, h, io);
  }

  /** A new handle given back on the spot. */
  lemma HandleGivenBack(s: State, o: Obj, io: Faults)
    requires Sound(s.core) && InMap(s.core.objs, s.core.layerMap, o) && s.core.refCount[o] > 0
    ensures var k, h := s.core, Handle(o, s.core.nextId);
      && Wf(GetReference(AddRef(k, o), o))
      && Release(s.(core := GetReference(AddRef(k, o), o)), h, io)
         == (s.(core := k.(nextId := k.nextId + 1)), Released(Removed([])))
  {
    var k, h := s.core, Handle(o, s.core.nextId);
    var t := s.(core := GetReference(AddRef(k, o), o));
    var u := s.(core := AddRef(k, o).(nextId := k.nextId + 1));
    assert h !in k.handles;
    assert k.handles + {h} - {h} == k.handles;
    assert t.(core := DropReference(t.core, h)) == u;
    assert DropRef(u.core, o).refCount == k.refCount;
    assert ReleaseTurn(u, o, [], 0, io) == Stop(s.(core := k.(nextId := k.nextId + 1)), Removed([]));
  }

  /** The first layer of an empty store. */
  function First(h: Digest, tar: string): State {
    Register(Init(h), "", tar, Prepared("a", 0), true, true, NoFaults).0
  }

  lemma FirstIsThere(h: Digest, tar: string)
    ensures var k := First(h, tar).core;
      && Inv(First(h, tar)) && k.layerMap == map[h(tar) := 0] && k.refCount == map[0 := 1]
      && k.handles == {Handle(0, 0)}
      && k.objs == map[0 := RoLayer(h(tar), h(tar), None, "a", 0, tar)]
  {
    InitInv(h);
    RegisterInv(Init(h), "", tar, Prepared("a", 0), true, true, NoFaults);
  }

  /** The same store after a release whose driver removal fails: the layer lingers. */
  function Lingering(h: Digest, tar: string): State {
    FirstIsThere(h, tar);
    Release(First(h, tar), Handle(0, 0), Faults({0}, {})).0
  }

  lemma LingersUncounted(h: Digest, tar: string)
    ensures var k := Lingering(h, tar).core;
      Inv(Lingering(h, tar)) && k.layerMap == map[h(tar) := 0] && 0 in k.refCount && k.refCount[0] == 0
  {
    FirstIsThere(h, tar);
    var s := First(h, tar);
    ReleaseInv(s, Handle(0, 0), Faults({0}, {}));
    var t := s.(core := DropReference(s.core, Handle(0, 0)));
    assert t.core.handles == {};
    assert ReleaseTurn(t, 0, [], 0, Faults({0}, {})) == Stop(t.(core := DropRef(t.core, 0)), Failed);
  }

  /** A run in which a failed `Register` does not restore the store: after a release whose driver removal
      fails, one on top of the lingering layer that fails to create its driver layer removes the parent. */
  lemma FailedRegisterDropsLingering(h: Digest, tar: string, other: string)
    requires h(tar) != ""
    ensures Wf(Lingering(h, tar).core) && h(tar) in Lingering(h, tar).core.layerMap
    ensures var (t, r) := Register(Lingering(h, tar), h(tar), other, CreateFailed, true, true, NoFaults);
      r.IOFailed? && h(tar) !in t.core.layerMap
  {
    LingersUncounted(h, tar);
    FailedRegisterRestoresIff(Lingering(h, tar), h(tar), other, CreateFailed, true, true, NoFaults);
  }

  /** A `Get` and the `Release` of the handle it gives leave the state as it was, but that the identity of
      the handle is used up. */
  lemma GetReleaseRestores(s: State, chain: string, io: Faults)
    requires Inv(s) && chain in s.core.layerMap && s.core.refCount[s.core.layerMap[chain]] > 0
    ensures var (t, h) := Get(s, chain);
      h.Some? && h.value.obj in t.core.objs && Wf(t.core)
      && Release(t, h.value, io) == (s.(core := s.core.(nextId := s.core.nextId + 1)), Released(Removed([])))
  {
    HandleGivenBack(s, s.core.layerMap[chain], io);
  }
}
