/**
 The layer store as a transition system.

 `layerStore` keeps read-only layers in a map keyed by ChainID, counts the references to each of
 them, and hangs writable mounts on top.  Its operations take the two locks in pieces, so an
 operation is a sequence of atomic steps here (`Step`), with the hold it has on a layer recorded in
 its process entry (`Proc`) between two steps.  Every call into the graph driver or the metadata
 store carries its outcome in the step, so that any of them may fail.
 */
module LayerState {
  import opened ChainIds

  datatype Option<+T> = None | Some(value: T)

  /** Identity of an allocated `roLayer`; parents are allocated before their children. */
  type Obj = nat
  type Pid = nat

  datatype RoLayer = RoLayer(chainID: string, diffID: string, parent: Option<Obj>, cacheID: string,
                             size: int, tar: string)

  /** A `referencedCacheLayer`: a distinct pointer that embeds the layer it refers to. */
  datatype Handle = Handle(obj: Obj, id: nat)

  /** A `mountedLayer`; `id` tells it from an earlier mount of the same name. */
  datatype Mount = Mount(id: nat, mountID: string, initID: string, parent: Option<Obj>)

  /** A `referencedRWLayer`. */
  datatype RWHandle = RWHandle(name: string, mount: nat, id: nat)

  /** The activity count of a writable handle, beside the driver calls made on its behalf. */
  datatype Activity = Activity(count: int, getsOk: nat, getsFailed: nat, putsOk: nat, putsFailed: nat)

  /** Layer metadata; `tar` stands for the tar-split data from which the archive is reassembled. */
  datatype LayerMeta = LayerMeta(diffID: string, size: int, cacheID: string, parent: string, tar: string)
  datatype MountMeta = MountMeta(mountID: string, initID: string, parent: string)

  /** What survives a restart: layer metadata, mount metadata and driver layers.
      `stale` names mounts whose record holds something of a save that failed half-way. */
  datatype Disk = Disk(meta: map<string, LayerMeta>, mountMeta: map<string, MountMeta>,
                       stale: set<string>, driver: set<string>)

  datatype Metadata = Metadata(chainID: string, diffID: string, size: int, diffSize: int)

  /** Where an operation stands between two of its steps. */
  datatype Proc =
    | RegisterHeld(parent: Option<Obj>, tar: string)          // parent held, depth checked
    | RegisterStored(layer: RoLayer)                          // transaction filled, layerL not yet taken
    | RegisterCleaning(parent: Option<Obj>, cacheID: string)  // deferred removal of the driver layer
    | GetHeld(obj: Obj)                                       // counted, handle not yet made
    | CreateHeld(name: string, parent: Option<Obj>)           // CreateRWLayer, mountL held
    | Unwinding(obj: Obj, mountLocked: bool)                  // about to release a layer
  {
    /** The layer this operation has counted a reference on. */
    function Hold(): Option<Obj> {
      match this
      case RegisterHeld(p, _) => p
      case RegisterStored(l) => l.parent
      case RegisterCleaning(p, _) => p
      case GetHeld(o) => Some(o)
      case CreateHeld(_, p) => p
      case Unwinding(o, _) => Some(o)
    }

    predicate HoldsMountLock() {
      CreateHeld? || (Unwinding? && mountLocked)
    }
  }

  /** The reference-counted part of the store, with the holds of the operations in flight. */
  datatype Core = Core(
    objs: map<Obj, RoLayer>, nextObj: nat,
    layerMap: map<string, Obj>, refCount: map<Obj, int>,
    handles: set<Handle>, nextId: nat,
    mounts: map<string, Mount>,
    procs: map<Pid, Proc>)

  datatype State = State(
    digest: Digest,
    core: Core,
    rwRefs: set<RWHandle>, rw: map<RWHandle, Activity>, nextRW: nat,
    mountOwner: Option<Pid>,
    disk: Disk,
    panicked: bool)

  const EmptyCore := Core(map[], 0, map[], map[], {}, 0, map[], map[])

  function Init(h: Digest): State {
    State(h, EmptyCore, {}, map[], 0, None, Disk(map[], map[], {}, {}), false)
  }

  // ----- Well-formedness: every pointer points somewhere -----

  ghost predicate Acyclic(objs: map<Obj, RoLayer>) {
    forall o {:trigger objs[o].parent} :: o in objs && objs[o].parent.Some? ==>
      objs[o].parent.value in objs && objs[o].parent.value < o
  }

  ghost predicate ValidParent(objs: map<Obj, RoLayer>, p: Option<Obj>) {
    p.Some? ==> p.value in objs
  }

  ghost predicate ValidMap(objs: map<Obj, RoLayer>, layerMap: map<string, Obj>) {
    forall c :: c in layerMap ==> layerMap[c] in objs
  }

  ghost predicate ValidHandles(objs: map<Obj, RoLayer>, handles: set<Handle>) {
    forall h :: h in handles ==> h.obj in objs
  }

  ghost predicate ValidMounts(objs: map<Obj, RoLayer>, mounts: map<string, Mount>) {
    forall n :: n in mounts ==> ValidParent(objs, mounts[n].parent)
  }

  ghost predicate ValidProcs(objs: map<Obj, RoLayer>, procs: map<Pid, Proc>) {
    forall q :: q in procs ==> ValidParent(objs, procs[q].Hold())
  }

  ghost predicate Wf(k: Core) {
    && Acyclic(k.objs)
    && (forall o :: o in k.objs ==> o < k.nextObj && o in k.refCount)
    && ValidMap(k.objs, k.layerMap)
    && ValidHandles(k.objs, k.handles)
    && ValidMounts(k.objs, k.mounts)
    && ValidProcs(k.objs, k.procs)
  }

  // ----- Walks up the parent chain -----

  function Depth(objs: map<Obj, RoLayer>, o: Obj): nat
    requires Acyclic(objs) && o in objs
    decreases o
  {
    if objs[o].parent.None? then 1 else Depth(objs, objs[o].parent.value) + 1
  }

  function Size(objs: map<Obj, RoLayer>, o: Obj): int
    requires Acyclic(objs) && o in objs
    decreases o
  {
    (if objs[o].parent.None? then 0 else Size(objs, objs[o].parent.value)) + objs[o].size
  }

  /** DiffIDs of a layer's chain, base layer first. */
  function ChainDiffIDs(objs: map<Obj, RoLayer>, o: Obj): seq<string>
    requires Acyclic(objs) && o in objs
    decreases o
  {
    (if objs[o].parent.None? then [] else ChainDiffIDs(objs, objs[o].parent.value)) + [objs[o].diffID]
  }

  function MetadataOf(objs: map<Obj, RoLayer>, o: Obj): Metadata
    requires Acyclic(objs) && o in objs
  {
    Metadata(objs[o].chainID, objs[o].diffID, Size(objs, o), objs[o].size)
  }

  // ----- The four kinds of reference to a layer -----

  function HandlesOn(handles: set<Handle>, o: Obj): set<Handle> {
    set h | h in handles && h.obj == o
  }

  ghost predicate IsChild(objs: map<Obj, RoLayer>, layerMap: map<string, Obj>, c: string, o: Obj) {
    c in layerMap && layerMap[c] in objs && objs[layerMap[c]].parent == Some(o)
  }

  ghost function ChildrenOf(objs: map<Obj, RoLayer>, layerMap: map<string, Obj>, o: Obj): set<string> {
    set c | c in layerMap && IsChild(objs, layerMap, c, o)
  }

  ghost function MountsOn(mounts: map<string, Mount>, o: Obj): set<string> {
    set n | n in mounts && mounts[n].parent == Some(o)
  }

  ghost function HoldsOn(procs: map<Pid, Proc>, o: Obj): set<Pid> {
    set q | q in procs && procs[q].Hold() == Some(o)
  }

  ghost function References(k: Core, o: Obj): nat {
    |HandlesOn(k.handles, o)| + |ChildrenOf(k.objs, k.layerMap, o)| + |MountsOn(k.mounts, o)| + |HoldsOn(k.procs, o)|
  }

  ghost predicate InMap(objs: map<Obj, RoLayer>, layerMap: map<string, Obj>, o: Obj) {
    o in objs && objs[o].chainID in layerMap && layerMap[objs[o].chainID] == o
  }

  // ----- Updates of the core -----

  function AddRef(k: Core, o: Obj): Core
    requires o in k.refCount
  {
    k.(refCount := k.refCount[o := k.refCount[o] + 1])
  }

  function DropRef(k: Core, o: Obj): (r: Core)
    requires o in k.refCount
    ensures Wf(k) ==> Wf(r)
  {
    k.(refCount := k.refCount[o := k.refCount[o] - 1])
  }

  /** `roLayer.getReference`: a fresh handle on `o`. */
  function GetReference(k: Core, o: Obj): Core {
    k.(handles := k.handles + {Handle(o, k.nextId)}, nextId := k.nextId + 1)
  }

  function DropReference(k: Core, h: Handle): Core {
    k.(handles := k.handles - {h})
  }

  function SetProc(k: Core, pid: Pid, p: Proc): Core {
    k.(procs := k.procs[pid := p])
  }

  function EndProc(k: Core, pid: Pid): Core {
    k.(procs := k.procs - {pid})
  }

  /** A new layer enters the map, counted once. */
  function AddLayer(k: Core, l: RoLayer): Core {
    var o := k.nextObj;
    k.(objs := k.objs[o := l], nextObj := o + 1, layerMap := k.layerMap[l.chainID := o],
       refCount := k.refCount[o := 1])
  }

  function RemoveLayer(k: Core, o: Obj): (r: Core)
    requires o in k.objs
    ensures Wf(k) ==> Wf(r)
  {
    k.(layerMap := k.layerMap - {k.objs[o].chainID})
  }

  function AddMount(k: Core, name: string, m: Mount): Core {
    k.(mounts := k.mounts[name := m])
  }

  function RemoveMount(k: Core, name: string): Core {
    k.(mounts := k.mounts - {name})
  }

  // ----- The disk -----

  function DriverAdd(d: Disk, ids: set<string>): Disk {
    d.(driver := d.driver + ids)
  }

  function DriverRemove(d: Disk, id: string): Disk {
    d.(driver := d.driver - {id})
  }

  /** `deleteLayer` succeeded. */
  function DeleteLayer(d: Disk, l: RoLayer): Disk {
    d.(driver := d.driver - {l.cacheID}, meta := d.meta - {l.chainID})
  }

  function ParentChain(objs: map<Obj, RoLayer>, parent: Option<Obj>): string
    requires ValidParent(objs, parent)
  {
    if parent.None? then "" else objs[parent.value].chainID
  }

  function MetaOf(objs: map<Obj, RoLayer>, l: RoLayer): LayerMeta
    requires ValidParent(objs, l.parent)
  {
    LayerMeta(l.diffID, l.size, l.cacheID, ParentChain(objs, l.parent), l.tar)
  }

  // ----- Frames -----

  /** The layers and their metadata are untouched; counts may differ. */
  ghost predicate SameMap(s: State, t: State) {
    && t.digest == s.digest && t.core.objs == s.core.objs && t.core.nextObj == s.core.nextObj
    && t.core.layerMap == s.core.layerMap && t.disk.meta == s.disk.meta && t.panicked == s.panicked
  }

  ghost predicate SameLayers(s: State, t: State) {
    SameMap(s, t) && t.core.refCount == s.core.refCount
  }

  ghost predicate SameHandles(s: State, t: State) {
    t.core.handles == s.core.handles && t.core.nextId == s.core.nextId
  }

  /** The mounts, their handles and their metadata are untouched. */
  ghost predicate SameRW(s: State, t: State) {
    && t.core.mounts == s.core.mounts && t.rwRefs == s.rwRefs && t.rw == s.rw && t.nextRW == s.nextRW
    && t.disk.mountMeta == s.disk.mountMeta && t.disk.stale == s.disk.stale
  }

  // ----- Releasing -----

  /** Driver and metadata removals that fail during one release. */
  datatype Faults = Faults(driver: set<Obj>, meta: set<Obj>)

  const NoFaults := Faults({}, {})

  datatype ReleaseResult = Removed(layers: seq<Metadata>) | Failed | Panic(message: string)

  /** What a release leaves alone. */
  ghost predicate OnlyReleases(s: State, t: State) {
    t == s.(core := s.core.(layerMap := t.core.layerMap, refCount := t.core.refCount),
            disk := s.disk.(meta := t.disk.meta, driver := t.disk.driver),
            panicked := t.panicked)
  }

  /** A layer leaves the map together with its metadata. */
  ghost predicate MapWithMeta(s: State, t: State, o: Obj)
    requires o in s.core.objs
  {
    var c := s.core.objs[o].chainID;
    || (t.core.layerMap == s.core.layerMap && t.disk.meta == s.disk.meta)
    || (t.core.layerMap == s.core.layerMap - {c} && t.disk.meta == s.disk.meta - {c})
  }

  datatype Turn = Stop(s: State, result: ReleaseResult) | Climb(s: State, parent: Obj)

  /** One turn of the loop of `releaseLayer`, with its three panics and the two failures of `deleteLayer`. */
  function ReleaseTurn(s: State, o: Obj, removed: seq<Metadata>, depth: nat, io: Faults): (r: Turn)
    requires Wf(s.core) && o in s.core.objs
    ensures Wf(r.s.core) && OnlyReleases(s, r.s) && MapWithMeta(s, r.s, o)
    ensures r.Climb? ==> s.core.objs[o].parent == Some(r.parent)
  {
    if s.core.refCount[o] == 0 then Stop(s, Panic("layer not retained"))
    else
      var k := DropRef(s.core, o);
      var l := k.objs[o];
      var t := s.(core := k);
      if k.refCount[o] != 0 then Stop(t, Removed(removed))
      else if |removed| == 0 && depth > 0 then Stop(t, Panic("cannot remove layer with child"))
      else if HandlesOn(k.handles, o) != {} then Stop(t, Panic("cannot delete referenced layer"))
      else if o in io.driver then Stop(t, Failed)
      else if o in io.meta then Stop(t.(disk := DriverRemove(s.disk, l.cacheID)), Failed)
      else
        var u := s.(core := RemoveLayer(k, o), disk := DeleteLayer(s.disk, l));
        if l.parent.Some? then Climb(u, l.parent.value)
        else Stop(u, Removed(removed + [MetadataOf(k.objs, o)]))
  }

  /** `releaseLayer` from the `depth`-th turn on, `removed` being the layers removed before. */
  function ReleaseLoop(s: State, o: Obj, removed: seq<Metadata>, depth: nat, io: Faults): (r: (State, ReleaseResult))
    requires Wf(s.core) && o in s.core.objs
    ensures Wf(r.0.core) && OnlyReleases(s, r.0)
    decreases o
  {
    match ReleaseTurn(s, o, removed, depth, io)
    case Stop(t, res) => (t, res)
    case Climb(t, p) => ReleaseLoop(t, p, removed + [MetadataOf(s.core.objs, o)], depth + 1, io)
  }

  function ReleaseLayer(s: State, o: Obj, io: Faults): (r: (State, ReleaseResult))
    requires Wf(s.core) && o in s.core.objs
    ensures Wf(r.0.core) && OnlyReleases(s, r.0)
  {
    var (t, res) := ReleaseLoop(s, o, [], 0, io);
    (t.(panicked := t.panicked || res.Panic?), res)
  }

  datatype ReleaseOutcome = Released(result: ReleaseResult) | Unknown | NotRetained

  /** `Release` of the handle `h`, live or not. */
  function Release(s: State, h: Handle, io: Faults): (State, ReleaseOutcome)
    requires Wf(s.core) && h.obj in s.core.objs
  {
    var c := s.core.objs[h.obj].chainID;
    if c !in s.core.layerMap then (s, Unknown)
    else if h.obj != s.core.layerMap[c] || h !in s.core.handles then (s, NotRetained)
    else
      var (t, res) := ReleaseLayer(s.(core := DropReference(s.core, h)), h.obj, io);
      (t, Released(res))
  }

  /** The deferred release of a held parent, or the end of the operation when there is none. */
  function Unwind(s: State, pid: Pid, parent: Option<Obj>, mountLocked: bool): (t: State)
    ensures SameLayers(s, t) && SameHandles(s, t) && SameRW(s, t)
  {
    match parent
    case Some(p) => s.(core := SetProc(s.core, pid, Unwinding(p, mountLocked)))
    case None => s.(core := EndProc(s.core, pid), mountOwner := if mountLocked then None else s.mountOwner)
  }

  function UnwindRelease(s: State, pid: Pid, o: Obj, mountLocked: bool, io: Faults): State
    requires Wf(s.core) && o in s.core.objs
  {
    var t := s.(core := EndProc(s.core, pid), mountOwner := if mountLocked then None else s.mountOwner);
    ReleaseLayer(t, o, io).0
  }

  // ----- Register -----

  datatype Prepare =
    | Prepared(cacheID: string, size: int)  // Create, StartTransaction, applyTar and storeLayer succeed
    | CreateFailed                          // driver.Create fails
    | TransactionFailed(cacheID: string)    // StartTransaction fails: its driver layer stays behind
    | FillFailed(cacheID: string)           // applyTar or storeLayer fails

  function NewLayer(h: Digest, objs: map<Obj, RoLayer>, parent: Option<Obj>, tar: string,
                    cacheID: string, size: int): RoLayer
    requires ValidParent(objs, parent)
  {
    var d := h(tar);
    var c := if parent.None? then d else CreateChainIDFromParent(h, objs[parent.value].chainID, [d]);
    RoLayer(c, d, parent, cacheID, size, tar)
  }

  function RegisterBegin(s: State, pid: Pid, parent: string, tar: string): (t: State)
    requires Wf(s.core)
    ensures SameMap(s, t) && SameHandles(s, t) && SameRW(s, t)
  {
    if parent == "" then s.(core := SetProc(s.core, pid, RegisterHeld(None, tar)))
    else if parent !in s.core.layerMap then s
    else
      var p := s.core.layerMap[parent];
      s.(core := SetProc(AddRef(s.core, p), pid,
                         if Depth(s.core.objs, p) >= MAX_LAYER_DEPTH then Unwinding(p, false)
                         else RegisterHeld(Some(p), tar)))
  }

  function RegisterPrepare(s: State, pid: Pid, parent: Option<Obj>, tar: string, prep: Prepare): (t: State)
    requires ValidParent(s.core.objs, parent)
    ensures SameLayers(s, t) && SameHandles(s, t) && SameRW(s, t)
  {
    match prep
    case CreateFailed => Unwind(s, pid, parent, false)
    case TransactionFailed(id) => Unwind(s.(disk := DriverAdd(s.disk, {id})), pid, parent, false)
    case FillFailed(id) =>
      s.(core := SetProc(s.core, pid, RegisterCleaning(parent, id)), disk := DriverAdd(s.disk, {id}))
    case Prepared(id, size) =>
      s.(core := SetProc(s.core, pid, RegisterStored(NewLayer(s.digest, s.core.objs, parent, tar, id, size))),
         disk := DriverAdd(s.disk, {id}))
  }

  function RegisterCommit(s: State, pid: Pid, l: RoLayer, commitOk: bool): State
    requires Wf(s.core) && ValidParent(s.core.objs, l.parent)
  {
    var clean := RegisterCleaning(l.parent, l.cacheID);
    if l.chainID in s.core.layerMap then
      var o := s.core.layerMap[l.chainID];
      s.(core := SetProc(GetReference(AddRef(s.core, o), o), pid, clean))
    else if !commitOk then s.(core := SetProc(s.core, pid, clean))
    else
      s.(core := GetReference(AddLayer(EndProc(s.core, pid), l), s.core.nextObj),
         disk := s.disk.(meta := s.disk.meta[l.chainID := MetaOf(s.core.objs, l)]))
  }

  function RegisterCleanup(s: State, pid: Pid, parent: Option<Obj>, cacheID: string, removeOk: bool): (t: State)
    ensures SameLayers(s, t) && SameHandles(s, t) && SameRW(s, t)
  {
    Unwind(if removeOk then s.(disk := DriverRemove(s.disk, cacheID)) else s, pid, parent, false)
  }

  // ----- Get -----

  function GetBegin(s: State, pid: Pid, chain: string): (t: State)
    requires Wf(s.core)
    ensures SameMap(s, t) && SameHandles(s, t) && SameRW(s, t)
  {
    if chain !in s.core.layerMap then s
    else
      var o := s.core.layerMap[chain];
      s.(core := SetProc(AddRef(s.core, o), pid, GetHeld(o)))
  }

  function GetFinish(s: State, pid: Pid, o: Obj): (t: State)
    ensures SameLayers(s, t) && SameRW(s, t)
  {
    s.(core := GetReference(EndProc(s.core, pid), o))
  }

  // ----- Writable layers -----

  function CreateRWBegin(s: State, pid: Pid, name: string, parent: string): (t: State)
    requires Wf(s.core)
    ensures SameMap(s, t) && SameHandles(s, t) && SameRW(s, t)
  {
    if name in s.core.mounts then s
    else if parent == "" then
      s.(core := SetProc(s.core, pid, CreateHeld(name, None)), mountOwner := Some(pid))
    else if parent !in s.core.layerMap then s
    else
      var p := s.core.layerMap[parent];
      s.(core := SetProc(AddRef(s.core, p), pid, CreateHeld(name, Some(p))), mountOwner := Some(pid))
  }

  datatype CreateRW =
    | Saved
    | InitFailed(left: bool)     // initMount fails, its driver layer created or not
    | MountFailed                // driver.Create of the mount fails
    | SaveFailed(written: nat)   // saveMount fails after `written` of its three writes

  /** The metadata record of a mount after the first `written` writes of `saveMount`. */
  function SaveMount(d: Disk, objs: map<Obj, RoLayer>, name: string, m: Mount, written: nat): MountMeta
    requires ValidParent(objs, m.parent)
  {
    var before := if name in d.mountMeta then d.mountMeta[name] else MountMeta("", "", "");
    MountMeta(if written >= 1 then m.mountID else before.mountID,
              if written >= 2 && m.initID != "" then m.initID else before.initID,
              if written >= 3 && m.parent.Some? then ParentChain(objs, m.parent) else before.parent)
  }

  /** A complete save leaves nothing of an earlier record: it writes the init layer and the parent only if
      the mount has them. */
  predicate Overwrites(d: Disk, name: string, m: Mount) {
    name in d.mountMeta ==>
      (m.initID != "" || d.mountMeta[name].initID == "") && (m.parent.Some? || d.mountMeta[name].parent == "")
  }

  /** `mountedLayer.getReference`. */
  function RWReference(s: State, name: string, mount: nat): (t: State)
    ensures SameLayers(s, t) && SameHandles(s, t)
  {
    var h := RWHandle(name, mount, s.nextRW);
    s.(rwRefs := s.rwRefs + {h}, rw := s.rw[h := Activity(0, 0, 0, 0, 0)], nextRW := s.nextRW + 1)
  }

  /** The disk after an attempt to create the mount `m`. */
  function CreateRWDisk(d: Disk, objs: map<Obj, RoLayer>, name: string, m: Mount, out: CreateRW): Disk
    requires ValidParent(objs, m.parent)
  {
    var init := if m.initID == "" then {} else {m.initID};
    match out
    case InitFailed(left) => if left then DriverAdd(d, init) else d
    case MountFailed => DriverAdd(d, init)
    case SaveFailed(k) =>
      var e := DriverAdd(d, init + {m.mountID});
      if k == 0 then e
      else e.(mountMeta := d.mountMeta[name := SaveMount(d, objs, name, m, if k > 2 then 2 else k)],
              stale := d.stale + {name})
    case Saved =>
      DriverAdd(d, init + {m.mountID}).(mountMeta := d.mountMeta[name := SaveMount(d, objs, name, m, 3)],
                                        stale := if Overwrites(d, name, m) then d.stale - {name} else d.stale)
  }

  function CreateRWFinish(s: State, pid: Pid, name: string, parent: Option<Obj>,
                          mountID: string, initID: string, out: CreateRW): (t: State)
    requires ValidParent(s.core.objs, parent)
    ensures SameLayers(s, t) && SameHandles(s, t)
  {
    var m := Mount(s.nextRW, mountID, initID, parent);
    var t := s.(disk := CreateRWDisk(s.disk, s.core.objs, name, m, out));
    if out.Saved? then
      RWReference(t.(core := AddMount(EndProc(s.core, pid), name, m), nextRW := s.nextRW + 1, mountOwner := None),
                  name, m.id)
    else Unwind(t, pid, parent, true)
  }

  function GetRW(s: State, name: string): (t: State)
    ensures SameLayers(s, t) && SameHandles(s, t)
  {
    if name !in s.core.mounts then s else RWReference(s, name, s.core.mounts[name].id)
  }

  datatype ReleaseRWFault = NoFault | MountRemoveFailed | InitRemoveFailed | MetaRemoveFailed

  /** What `ReleaseRWLayer` answers before it comes to the parent layer. */
  datatype ReleaseRWOutcome = MountUnknown | RWNotRetained | ActiveMount | StillReferenced | RemoveFailed | MountRemoved

  function ReleaseRWResult(s: State, h: RWHandle, fault: ReleaseRWFault): ReleaseRWOutcome {
    if h.name !in s.core.mounts then MountUnknown
    else if h.mount != s.core.mounts[h.name].id || h !in s.rwRefs || h !in s.rw then RWNotRetained
    else if s.rw[h].count > 0 then ActiveMount
    else if exists g :: g in s.rwRefs && g != h && g.name == h.name && g.mount == h.mount then StillReferenced
    else if fault == MountRemoveFailed || fault == MetaRemoveFailed
         || (fault == InitRemoveFailed && s.core.mounts[h.name].initID != "") then RemoveFailed
    else MountRemoved
  }

  /** The disk after the removals of `ReleaseRWLayer`, up to the failing one. */
  function ReleaseRWDisk(d: Disk, name: string, m: Mount, fault: ReleaseRWFault): Disk {
    if fault.MountRemoveFailed? then d
    else
      var e := DriverRemove(d, m.mountID);
      if fault.InitRemoveFailed? && m.initID != "" then e
      else
        var f := if m.initID == "" then e else DriverRemove(e, m.initID);
        if fault.MetaRemoveFailed? then f
        else f.(mountMeta := f.mountMeta - {name}, stale := f.stale - {name})
  }

  function ReleaseRW(s: State, pid: Pid, h: RWHandle, fault: ReleaseRWFault): (t: State)
    ensures SameLayers(s, t) && SameHandles(s, t)
  {
    var out := ReleaseRWResult(s, h, fault);
    if out.MountUnknown? || out.RWNotRetained? || out.ActiveMount? then s
    else
      var m := s.core.mounts[h.name];
      var t := s.(rwRefs := s.rwRefs - {h}, rw := s.rw[h := s.rw[h].(count := -1)],
                  disk := if out.StillReferenced? then s.disk else ReleaseRWDisk(s.disk, h.name, m, fault));
      if !out.MountRemoved? then t
      else
        match m.parent
        case None => t.(core := RemoveMount(s.core, h.name))
        case Some(p) =>
          t.(core := SetProc(RemoveMount(s.core, h.name), pid, Unwinding(p, true)), mountOwner := Some(pid))
  }

  function MountRW(s: State, h: RWHandle, ok: bool): (t: State)
    ensures SameLayers(s, t) && SameHandles(s, t)
  {
    if h !in s.rw || s.rw[h].count == -1 then s
    else
      var a := s.rw[h].(count := s.rw[h].count + 1);
      s.(rw := s.rw[h := if ok then a.(getsOk := a.getsOk + 1) else a.(getsFailed := a.getsFailed + 1)])
  }

  function UnmountRW(s: State, h: RWHandle, ok: bool): (t: State)
    ensures SameLayers(s, t) && SameHandles(s, t)
  {
    if h !in s.rw || s.rw[h].count == 0 || s.rw[h].count == -1 then s
    else
      var a := s.rw[h].(count := s.rw[h].count - 1);
      s.(rw := s.rw[h := if ok then a.(putsOk := a.putsOk + 1) else a.(putsFailed := a.putsFailed + 1)])
  }

  // ----- The transition relation -----

  datatype Step =
    | SRegister(pid: Pid, parent: string, tar: string)
    | SPrepare(pid: Pid, prep: Prepare)
    | SCommit(pid: Pid, commitOk: bool)
    | SCleanup(pid: Pid, removeOk: bool)
    | SUnwind(pid: Pid, io: Faults)
    | SGet(pid: Pid, chain: string)
    | SGetFinish(pid: Pid)
    | SRelease(handle: Handle, io: Faults)
    | SCreateRW(pid: Pid, name: string, parent: string)
    | SCreateRWFinish(pid: Pid, mountID: string, initID: string, out: CreateRW)
    | SGetRW(name: string)
    | SReleaseRW(pid: Pid, rwHandle: RWHandle, fault: ReleaseRWFault)
    | SMount(rwHandle: RWHandle, ok: bool)
    | SUnmount(rwHandle: RWHandle, ok: bool)

  /** Whether the step is at its program point, with the lock it needs free and its pointers valid. */
  predicate Enabled(s: State, e: Step) {
    var procs := s.core.procs;
    match e
    case SRegister(pid, _, _) => pid !in procs
    case SPrepare(pid, _) => pid in procs && procs[pid].RegisterHeld?
    case SCommit(pid, _) => pid in procs && procs[pid].RegisterStored?
    case SCleanup(pid, _) => pid in procs && procs[pid].RegisterCleaning?
    case SUnwind(pid, _) => pid in procs && procs[pid].Unwinding?
    case SGet(pid, _) => pid !in procs
    case SGetFinish(pid) => pid in procs && procs[pid].GetHeld?
    case SRelease(h, _) => h.obj in s.core.objs
    case SCreateRW(pid, _, _) => pid !in procs && s.mountOwner.None?
    case SCreateRWFinish(pid, _, _, _) => pid in procs && procs[pid].CreateHeld?
    case SGetRW(_) => s.mountOwner.None?
    case SReleaseRW(pid, _, _) => pid !in procs && s.mountOwner.None?
    case SMount(_, _) => true
    case SUnmount(_, _) => true
  }

  /** The effect of a step; one that is not enabled changes nothing. */
  function Next(s: State, e: Step): (t: State)
    requires Wf(s.core)
    ensures t.digest == s.digest
  {
    if !Enabled(s, e) then s
    else
      var procs := s.core.procs;
      match e
      case SRegister(pid, parent, tar) => RegisterBegin(s, pid, parent, tar)
      case SPrepare(pid, prep) =>
        assert ValidParent(s.core.objs, procs[pid].Hold());
        RegisterPrepare(s, pid, procs[pid].parent, procs[pid].tar, prep)
      case SCommit(pid, ok) =>
        assert ValidParent(s.core.objs, procs[pid].Hold());
        RegisterCommit(s, pid, procs[pid].layer, ok)
      case SCleanup(pid, ok) => RegisterCleanup(s, pid, procs[pid].parent, procs[pid].cacheID, ok)
      case SUnwind(pid, io) =>
        assert ValidParent(s.core.objs, procs[pid].Hold());
        UnwindRelease(s, pid, procs[pid].obj, procs[pid].mountLocked, io)
      case SGet(pid, chain) => GetBegin(s, pid, chain)
      case SGetFinish(pid) => GetFinish(s, pid, procs[pid].obj)
      case SRelease(h, io) => Release(s, h, io).0
      case SCreateRW(pid, name, parent) => CreateRWBegin(s, pid, name, parent)
      case SCreateRWFinish(pid, mountID, initID, out) =>
        assert ValidParent(s.core.objs, procs[pid].Hold());
        CreateRWFinish(s, pid, procs[pid].name, procs[pid].parent, mountID, initID, out)
      case SGetRW(name) => GetRW(s, name)
      case SReleaseRW(pid, h, fault) => ReleaseRW(s, pid, h, fault)
      case SMount(h, ok) => MountRW(s, h, ok)
      case SUnmount(h, ok) => UnmountRW(s, h, ok)
  }
}
