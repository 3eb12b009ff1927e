/**
 The layer store as the object it is: its methods update the maps in place, one call at a time.

 Each method is tied to the functions of `LayerState` and `LayerRegister`.  An uninterrupted call is a
 run of the steps of the transition system (`RegisterIsRun`), so what holds over all runs holds of
 programs that call these methods.
 */
module LayerStore {
  import opened ChainIds
  import opened LayerState
  import opened LayerSafety
  import opened LayerReload
  import opened LayerRegister
  import Steps = LayerState
  import Whole = LayerRegister
  import opened LayerMounts
  import Mounts = LayerMounts

  /** A store just rebuilt satisfies the invariant of the transition system. */
  lemma RestoredInv(s: State, rank: map<string, nat>)
    requires Ranked(s.disk.meta, rank) && LayersReloaded(s.core, s.disk.meta, rank) && !s.panicked
    ensures Inv(s)
  {
  }

  /** What `List` reports: every layer that has metadata, once, and the mounts. */
  ghost predicate Lists(disk: Disk, ids: seq<string>, names: seq<string>) {
    && (forall i, j :: 0 <= i < j < |ids| ==> ids[i] != ids[j])
    && (forall c :: c in disk.meta ==> c in ids) && (forall n :: n in disk.mountMeta <==> n in names)
  }

  class Store {
    const digest: Digest
    var core: Core
    var rwRefs: set<RWHandle>
    var rw: map<RWHandle, Activity>
    var nextRW: nat
    var mountOwner: Option<Pid>
    var disk: Disk
    var panicked: bool

    ghost function View(): State
      reads this
    {
      State(digest, core, rwRefs, rw, nextRW, mountOwner, disk, panicked)
    }

    ghost predicate Valid()
      reads this
    {
      Inv(View())
    }

    // ----- Releasing -----

    /** `releaseLayer`: give up one reference on `o` and remove the layers nobody refers to any more. */
    method ReleaseLayer(o: Obj, io: Faults) returns (res: ReleaseResult)
      requires Wf(core) && o in core.objs
      modifies this`core, this`disk, this`panicked
      ensures (View(), res) == Steps.ReleaseLayer(old(View()), o, io)
    {
      var l, depth, removed := o, 0, [];
      ghost var start := View();
      while true
        invariant Wf(core) && l in core.objs && View() == start.(core := core, disk := disk)
        invariant ReleaseLoop(start, o, [], 0, io) == ReleaseLoop(View(), l, removed, depth, io)
        decreases l
      {
        ghost var turn := ReleaseTurn(View(), l, removed, depth, io);
        if core.refCount[l] == 0 {
          panicked := true;
          return Panic("layer not retained");
        }
        core := DropRef(core, l);
        if core.refCount[l] != 0 {
          return Removed(removed);
        }
        if |removed| == 0 && depth > 0 {
          panicked := true;
          return Panic("cannot remove layer with child");
        }
        if HandlesOn(core.handles, l) != {} {
          panicked := true;
          return Panic("cannot delete referenced layer");
        }
        var layer := core.objs[l];
        if l in io.driver {
          return Failed;
        }
        if l in io.meta {
          disk := DriverRemove(disk, layer.cacheID);
          return Failed;
        }
        disk := DeleteLayer(disk, layer);
        var metadata := MetadataOf(core.objs, l);
        core := RemoveLayer(core, l);
        if layer.parent.None? {
          assert turn == Stop(View(), Removed(removed + [metadata]));
          return Removed(removed + [metadata]);
        }
        assert turn == Climb(View(), layer.parent.value);
        removed := removed + [metadata];
        depth := depth + 1;
        l := layer.parent.value;
      }
    }

    /** `Release`: a live handle gives up its reference, any other one changes nothing. */
    method Release(h: Handle, io: Faults) returns (out: ReleaseOutcome)
      requires Wf(core) && h.obj in core.objs
      modifies this`core, this`disk, this`panicked
      ensures (View(), out) == Steps.Release(old(View()), h, io)
      ensures old(Valid()) ==> Valid()
    {
      if Inv(View()) {
        ReleaseInv(View(), h, io);
      }
      var c := core.objs[h.obj].chainID;
      if c !in core.layerMap {
        return Unknown;
      }
      if h.obj != core.layerMap[c] || h !in core.handles {
        return NotRetained;
      }
      core := DropReference(core, h);
      var res := ReleaseLayer(h.obj, io);
      return Released(res);
    }

    // ----- Acquiring -----

    /** `Get`: a new handle on the layer of a ChainID, counted. */
    method Get(chain: string) returns (h: Option<Handle>)
      requires Wf(core)
      modifies this`core
      ensures (View(), h) == Whole.Get(old(View()), chain)
      ensures old(Valid()) ==> Valid()
    {
      if Inv(View()) {
        GetInv(View(), chain);
      }
      if chain !in core.layerMap {
        return None;
      }
      var o := core.layerMap[chain];
      core := AddRef(core, o);
      h := Some(Handle(o, core.nextId));
      core := GetReference(core, o);
    }

    /** The deferred clean-up of `Register`: the hold on the parent is given back. */
    method GiveBack(p: Option<Obj>, io: Faults)
      requires Wf(core) && ValidParent(core.objs, p)
      modifies this`core, this`disk, this`panicked
      ensures View() == Whole.GiveBack(old(View()), p, io)
    {
      if p.Some? {
        var _ := ReleaseLayer(p.value, io);
      }
    }

    /** The part of `Register` after the transaction is filled, with the parent held. */
    method Commit(l: RoLayer, commitOk: bool, removeOk: bool, io: Faults) returns (r: RegisterResult)
      requires Wf(core) && ValidParent(core.objs, l.parent)
      modifies this`core, this`disk, this`panicked
      ensures (View(), r) == Whole.Commit(old(View()), l, commitOk, removeOk, io)
    {
      if l.chainID in core.layerMap {
        var o := core.layerMap[l.chainID];
        r := Registered(Handle(o, core.nextId));
        core := GetReference(AddRef(core, o), o);
      } else if commitOk {
        disk := disk.(meta := disk.meta[l.chainID := MetaOf(core.objs, l)]);
        r := Registered(Handle(core.nextObj, core.nextId));
        core := GetReference(AddLayer(core, l), core.nextObj);
        return;
      } else {
        r := IOFailed;
      }
      if removeOk {
        disk := DriverRemove(disk, l.cacheID);
      }
      GiveBack(l.parent, io);
    }

    /** `Register` of an archive on top of `parent`. */
    method Register(tar: string, parent: string, prep: Prepare, commitOk: bool, removeOk: bool, io: Faults)
      returns (r: RegisterResult)
      requires Wf(core)
      modifies this
      ensures (View(), r) == Whole.Register(old(View()), parent, tar, prep, commitOk, removeOk, io)
      ensures old(Valid()) ==> Valid()
    {
      if Inv(View()) {
        RegisterInv(View(), parent, tar, prep, commitOk, removeOk, io);
      }
      var p: Option<Obj> := None;
      if parent != "" {
        if parent !in core.layerMap {
          return NoSuchParent;
        }
        p := Some(core.layerMap[parent]);
        core := AddRef(core, p.value);
        if Depth(core.objs, p.value) >= MAX_LAYER_DEPTH {
          GiveBack(p, io);
          return TooDeep;
        }
      }
      r := Fill(tar, p, prep, commitOk, removeOk, io);
    }

    /** The part of `Register` after the parent is held: the driver layer is made and filled. */
    method Fill(tar: string, p: Option<Obj>, prep: Prepare, commitOk: bool, removeOk: bool, io: Faults)
      returns (r: RegisterResult)
      requires Wf(core) && ValidParent(core.objs, p)
      modifies this`core, this`disk, this`panicked
      ensures (View(), r) == Whole.Fill(old(View()), p, tar, prep, commitOk, removeOk, io)
    {
      if prep.CreateFailed? {
        GiveBack(p, io);
        return IOFailed;
      }
      disk := DriverAdd(disk, {prep.cacheID});
      if !prep.Prepared? {
        if prep.FillFailed? && removeOk {
          disk := DriverRemove(disk, prep.cacheID);
        }
        GiveBack(p, io);
        return IOFailed;
      }
      r := Commit(NewLayer(digest, core.objs, p, tar, prep.cacheID, prep.size), commitOk, removeOk, io);
    }

    // ----- Writable layers -----

    /** `CreateRWLayer`: a mount on top of a held parent, which is given back if anything fails. */
    method CreateRWLayer(name: string, parent: string, mountID: string, initID: string, out: CreateRW, io: Faults)
      returns (r: CreateRWResult)
      requires Wf(core) && mountOwner == None
      modifies this
      ensures (View(), r) == Mounts.CreateRWLayer(old(View()), name, parent, mountID, initID, out, io)
      ensures old(Valid()) ==> Valid()
    {
      if Inv(View()) {
        CreateRWInv(View(), name, parent, mountID, initID, out, io);
      }
      if name in core.mounts {
        return NameConflict;
      }
      var p: Option<Obj> := None;
      if parent != "" {
        if parent !in core.layerMap {
          return ParentUnknown;
        }
        p := Some(core.layerMap[parent]);
        core := AddRef(core, p.value);
      }
      r := MakeMount(name, p, mountID, initID, out, io);
    }

    method MakeMount(name: string, p: Option<Obj>, mountID: string, initID: string, out: CreateRW, io: Faults)
      returns (r: CreateRWResult)
      requires Wf(core) && ValidParent(core.objs, p)
      modifies this
      ensures (View(), r) == Mounts.MakeMount(old(View()), name, p, mountID, initID, out, io)
    {
      var m := Mount(nextRW, mountID, initID, p);
      disk := CreateRWDisk(disk, core.objs, name, m, out);
      if !out.Saved? {
        GiveBack(p, io);
        return CreateRWFailed;
      }
      core := AddMount(core, name, m);
      nextRW := nextRW + 1;
      var h := NewReference(name, m.id);
      return CreatedRW(h);
    }

    /** `mountedLayer.getReference`. */
    method NewReference(name: string, mount: nat) returns (h: RWHandle)
      modifies this`rwRefs, this`rw, this`nextRW
      ensures View() == RWReference(old(View()), name, mount) && h == RWHandle(name, mount, old(nextRW))
    {
      h := RWHandle(name, mount, nextRW);
      rwRefs := rwRefs + {h};
      rw := rw[h := Activity(0, 0, 0, 0, 0)];
      nextRW := nextRW + 1;
    }

    method GetRWLayer(name: string) returns (h: Option<RWHandle>)
      modifies this`rwRefs, this`rw, this`nextRW
      ensures View() == GetRW(old(View()), name)
      ensures h == if name in core.mounts then Some(RWHandle(name, core.mounts[name].id, old(nextRW))) else None
    {
      if name !in core.mounts {
        return None;
      }
      var g := NewReference(name, core.mounts[name].id);
      return Some(g);
    }

    /** `ReleaseRWLayer`: the handle goes, with the last one the mount, and with it its hold on the parent. */
    method ReleaseRWLayer(h: RWHandle, fault: ReleaseRWFault, io: Faults) returns (out: ReleaseRWOutcome)
      requires Wf(core) && mountOwner == None
      modifies this
      ensures (View(), out) == Mounts.ReleaseRWLayer(old(View()), h, fault, io)
      ensures old(Valid()) ==> Valid()
    {
      if Inv(View()) {
        ReleaseRWInv(View(), h, fault, io);
      }
      DropMountWf(View(), h, fault);
      var p;
      out, p := DropMount(h, fault);
      GiveBack(p, io);
    }

    method DropMount(h: RWHandle, fault: ReleaseRWFault) returns (out: ReleaseRWOutcome, parent: Option<Obj>)
      modifies this`core, this`rwRefs, this`rw, this`disk
      ensures (View(), parent) == Mounts.DropMount(old(View()), h, fault)
      ensures out == ReleaseRWResult(old(View()), h, fault)
    {
      parent := None;
      if h.name !in core.mounts {
        return MountUnknown, None;
      }
      var m := core.mounts[h.name];
      if h.mount != m.id || h !in rwRefs || h !in rw {
        return RWNotRetained, None;
      }
      if rw[h].count > 0 {
        return ActiveMount, None;
      }
      rw := rw[h := rw[h].(count := -1)];
      rwRefs := rwRefs - {h};
      if exists g :: g in rwRefs && g.name == h.name && g.mount == h.mount {
        return StillReferenced, None;
      }
      disk := ReleaseRWDisk(disk, h.name, m, fault);
      if fault.MountRemoveFailed? || fault.MetaRemoveFailed? || (fault.InitRemoveFailed? && m.initID != "") {
        return RemoveFailed, None;
      }
      core := RemoveMount(core, h.name);
      return MountRemoved, m.parent;
    }

    /** `referencedRWLayer.Mount`; the activity is counted before the driver is asked. */
    method MountLayer(h: RWHandle, ok: bool) returns (done: bool)
      requires h in rw
      modifies this`rw
      ensures View() == MountRW(old(View()), h, ok) && (done <==> old(rw[h].count) != -1 && ok)
    {
      if rw[h].count == -1 {
        return false;
      }
      var a := rw[h].(count := rw[h].count + 1);
      rw := rw[h := if ok then a.(getsOk := a.getsOk + 1) else a.(getsFailed := a.getsFailed + 1)];
      return ok;
    }

    method UnmountLayer(h: RWHandle, ok: bool) returns (done: bool)
      requires h in rw
      modifies this`rw
      ensures View() == UnmountRW(old(View()), h, ok) && (done <==> old(rw[h].count) !in {0, -1} && ok)
    {
      if rw[h].count == 0 || rw[h].count == -1 {
        return false;
      }
      var a := rw[h].(count := rw[h].count - 1);
      rw := rw[h := if ok then a.(putsOk := a.putsOk + 1) else a.(putsFailed := a.putsFailed + 1)];
      return ok;
    }

    // ----- Starting up -----

    /** `NewStoreFromGraphDriver`: the store is rebuilt from the metadata, in whatever order `List`
        reports them.  `rank` shows that parent pointers in the metadata do not run in circles. */
    constructor (digest: Digest, disk: Disk, ids: seq<string>, names: seq<string>, ghost rank: map<string, nat>)
      requires Ranked(disk.meta, rank)
      requires Lists(disk, ids, names)
      ensures this.digest == digest && this.disk == disk && !panicked
      ensures mountOwner == None && rwRefs == {} && rw == map[]
      ensures Reloaded(core, disk.meta, disk.mountMeta, rank) && Valid()
    {
      this.digest := digest;
      core := EmptyCore;
      rwRefs, rw, nextRW, mountOwner := {}, map[], 0, None;
      this.disk := disk;
      panicked := false;
      new;
      Load(ids, names, rank);
    }

    /** The body of `NewStoreFromGraphDriver`: the layers, then the mounts. */
    method Load(ids: seq<string>, names: seq<string>, ghost rank: map<string, nat>)
      requires core == EmptyCore && !panicked && Ranked(disk.meta, rank)
      requires Lists(disk, ids, names)
      modifies this`core, this`nextRW
      ensures Reloaded(core, disk.meta, disk.mountMeta, rank) && Valid()
    {
      LoadLayers(ids, rank);
      LoadMounts(names, rank);
      RestoredInv(View(), rank);
    }

    /** The loop over the layers `List` reports. */
    method LoadLayers(ids: seq<string>, ghost rank: map<string, nat>)
      requires core == EmptyCore && Ranked(disk.meta, rank)
      requires forall i, j :: 0 <= i < j < |ids| ==> ids[i] != ids[j]
      requires forall c :: c in disk.meta ==> c in ids
      modifies this`core
      ensures LayersReloaded(core, disk.meta, rank) && core.mounts == map[]
    {
      ghost var done: set<string> := {};
      for i := 0 to |ids|
        invariant core.mounts == map[]
        invariant forall c :: c in done <==> c in ids[..i]
        invariant Worked(core, disk.meta, rank, done)
      {
        CountLayer(ids[i], done, rank);
        done := done + {ids[i]};
      }
      AllListed(core, disk.meta, rank, done);
      forall c | c in core.layerMap ensures Loadable(disk.meta, rank, c) {
        LoadedAreLoadable(core, disk.meta, rank, c);
      }
    }

    /** The loop over the mounts `List` reports. */
    method LoadMounts(names: seq<string>, ghost rank: map<string, nat>)
      requires Ranked(disk.meta, rank) && LayersReloaded(core, disk.meta, rank) && core.mounts == map[]
      requires forall n :: n in disk.mountMeta <==> n in names
      modifies this`core, this`nextRW
      ensures Reloaded(core, disk.meta, disk.mountMeta, rank)
    {
      ghost var done: set<string> := {};
      for i := 0 to |names|
        invariant forall n :: n in done <==> n in names[..i]
        invariant LayersReloaded(core, disk.meta, rank)
        invariant MountsReloaded(core.layerMap, core.mounts, disk.meta, disk.mountMeta, rank, done)
      {
        LoadMount(names[i], done, rank);
        done := done + {names[i]};
      }
      assert done == disk.mountMeta.Keys;
    }

    /** The body of the loop over the layers: load one, and count it on its parent. */
    method CountLayer(c: string, ghost done: set<string>, ghost rank: map<string, nat>)
      requires Ranked(disk.meta, rank) && Worked(core, disk.meta, rank, done) && c !in done
      modifies this`core
      ensures core.mounts == old(core.mounts)
      ensures Worked(core, disk.meta, rank, done + {c})
    {
      ghost var before := core;
      var l := LoadLayer(c, rank);
      GrownTallied(before, core, disk.meta, rank, done);
      if l.Some? && core.objs[l.value].parent.Some? {
        var p := core.objs[l.value].parent.value;
        CountChild(core, disk.meta, rank, done, c, p);
        core := AddRef(core, p);
      } else {
        if c in core.layerMap {
          LoadedAreLoadable(core, disk.meta, rank, c);
        }
        CountNone(core, disk.meta, rank, done, c);
      }
    }

    /** `loadLayer`: the layer is found in the map or put there after all layers below it. */
    method LoadLayer(c: string, ghost rank: map<string, nat>) returns (r: Option<Obj>)
      requires Ranked(disk.meta, rank) && Loaded(core, disk.meta)
      modifies this`core
      ensures Loaded(core, disk.meta) && Grown(old(core), core)
      ensures r.Some? <==> Loadable(disk.meta, rank, c)
      ensures r.Some? ==> c in core.layerMap && core.layerMap[c] == r.value
      ensures r.None? || c in old(core.layerMap) ==> core == old(core)
      ensures forall x :: x in core.layerMap && x !in old(core.layerMap) ==>
        x in rank && c in rank && rank[x] <= rank[c]
      decreases if c in rank then rank[c] else 0
    {
      if c in core.layerMap {
        LoadedAreLoadable(core, disk.meta, rank, c);
        return Some(core.layerMap[c]);
      }
      if c !in disk.meta {
        return None;
      }
      var m := disk.meta[c];
      var parent: Option<Obj> := None;
      ghost var before := core;
      if m.parent != "" {
        if m.parent !in disk.meta {
          return None;
        }
        parent := LoadLayer(m.parent, rank);
        if parent.None? {
          return None;
        }
      }
      var l := RoLayer(c, m.diffID, parent, m.cacheID, m.size, m.tar);
      AddLoadedLoaded(core, disk.meta, c, parent);
      GrownTransitive(before, core, AddLoaded(core, l));
      core := AddLoaded(core, l);
      return Some(core.layerMap[c]);
    }

    /** `loadMount`: the mount comes back unless its parent layer could not be loaded. */
    method LoadMount(name: string, ghost done: set<string>, ghost rank: map<string, nat>)
      requires name in disk.mountMeta && Ranked(disk.meta, rank) && LayersReloaded(core, disk.meta, rank)
      requires MountsReloaded(core.layerMap, core.mounts, disk.meta, disk.mountMeta, rank, done)
      modifies this`core, this`nextRW
      ensures LayersReloaded(core, disk.meta, rank) && core.layerMap == old(core.layerMap)
      ensures MountsReloaded(core.layerMap, core.mounts, disk.meta, disk.mountMeta, rank, done + {name})
    {
      if name in core.mounts {
        return;
      }
      var m := disk.mountMeta[name];
      var parent: Option<Obj> := None;
      if m.parent != "" {
        parent := LoadLayer(m.parent, rank);
        if parent.None? {
          return;
        }
      }
      var mount := Mount(nextRW, m.mountID, m.initID, parent);
      PutMountLayers(core, disk.meta, rank, name, mount);
      PutMountMounts(core.layerMap, core.mounts, disk.meta, disk.mountMeta, rank, done, name, mount);
      core := PutMount(core, name, mount);
      nextRW := nextRW + 1;
    }
  }
}
