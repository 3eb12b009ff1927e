/**
 The metadata store shadows the layers and mounts in memory, over every run.
 */
module LayerShadow {
  import opened LayerState
  import opened LayerSafety

  /** The committed metadata are those of the layers in the map. */
  ghost predicate Mirrors(objs: map<Obj, RoLayer>, layerMap: map<string, Obj>, meta: map<string, LayerMeta>) {
    && (forall c :: c in meta <==> c in layerMap)
    && (forall c :: c in layerMap && c in meta ==> Described(objs, layerMap[c], meta[c]))
  }

  ghost predicate Described(objs: map<Obj, RoLayer>, o: Obj, m: LayerMeta) {
    o in objs && ValidParent(objs, objs[o].parent) && m == MetaOf(objs, objs[o])
  }

  ghost predicate MountMirrored(objs: map<Obj, RoLayer>, mounts: map<string, Mount>, mountMeta: map<string, MountMeta>,
                                n: string) {
    && (n in mountMeta <==> n in mounts)
    && (n in mounts ==>
          && ValidParent(objs, mounts[n].parent)
          && mountMeta[n] == MountMeta(mounts[n].mountID, mounts[n].initID, ParentChain(objs, mounts[n].parent)))
  }

  /** So are those of the mounts, but for names left with partly written metadata by a failed save. */
  ghost predicate MirrorsMounts(objs: map<Obj, RoLayer>, mounts: map<string, Mount>, mountMeta: map<string, MountMeta>,
                                stale: set<string>) {
    forall n :: n !in stale ==> MountMirrored(objs, mounts, mountMeta, n)
  }

  ghost predicate ShadowInv(s: State) {
    && Mirrors(s.core.objs, s.core.layerMap, s.disk.meta)
    && MirrorsMounts(s.core.objs, s.core.mounts, s.disk.mountMeta, s.disk.stale)
  }

  lemma RemoveMirrors(objs: map<Obj, RoLayer>, layerMap: map<string, Obj>, meta: map<string, LayerMeta>, c: string)
    requires Mirrors(objs, layerMap, meta)
    ensures Mirrors(objs, layerMap - {c}, meta - {c})
  {
  }

  lemma AddMirrors(objs: map<Obj, RoLayer>, layerMap: map<string, Obj>, meta: map<string, LayerMeta>, n: Obj,
                   l: RoLayer)
    requires Mirrors(objs, layerMap, meta) && n !in objs && ValidParent(objs, l.parent)
    ensures Mirrors(objs[n := l], layerMap[l.chainID := n], meta[l.chainID := MetaOf(objs, l)])
  {
    var objs', map', meta' := objs[n := l], layerMap[l.chainID := n], meta[l.chainID := MetaOf(objs, l)];
    forall c | c in map' && c in meta' ensures Described(objs', map'[c], meta'[c]) {
      if c != l.chainID {
        assert Described(objs, layerMap[c], meta[c]);
      }
    }
  }

  lemma AddMirrorsMounts(objs: map<Obj, RoLayer>, mounts: map<string, Mount>, mountMeta: map<string, MountMeta>,
                         stale: set<string>,
                         n: Obj, l: RoLayer)
    requires MirrorsMounts(objs, mounts, mountMeta, stale) && n !in objs
    ensures MirrorsMounts(objs[n := l], mounts, mountMeta, stale)
  {
    forall x | x !in stale ensures MountMirrored(objs[n := l], mounts, mountMeta, x) {
      assert MountMirrored(objs, mounts, mountMeta, x);
    }
  }

  lemma RemoveMirrorsMount(objs: map<Obj, RoLayer>, mounts: map<string, Mount>, mountMeta: map<string, MountMeta>,
                           stale: set<string>, n: string)
    requires MirrorsMounts(objs, mounts, mountMeta, stale)
    ensures MirrorsMounts(objs, mounts - {n}, mountMeta - {n}, stale - {n})
  {
    forall x | x !in stale - {n} ensures MountMirrored(objs, mounts - {n}, mountMeta - {n}, x) {
      assert x != n ==> MountMirrored(objs, mounts, mountMeta, x);
    }
  }

  lemma ReleaseTurnMirrors(s: State, o: Obj, removed: seq<Metadata>, depth: nat, io: Faults)
    requires Wf(s.core) && o in s.core.objs
    requires Mirrors(s.core.objs, s.core.layerMap, s.disk.meta)
    ensures var t := ReleaseTurn(s, o, removed, depth, io).s; Mirrors(t.core.objs, t.core.layerMap, t.disk.meta)
  {
    RemoveMirrors(s.core.objs, s.core.layerMap, s.disk.meta, s.core.objs[o].chainID);
  }

  lemma {:induction false} ReleaseLoopMirrors(s: State, o: Obj, removed: seq<Metadata>, depth: nat, io: Faults)
    requires Wf(s.core) && o in s.core.objs
    requires Mirrors(s.core.objs, s.core.layerMap, s.disk.meta)
    ensures var t := ReleaseLoop(s, o, removed, depth, io).0; Mirrors(t.core.objs, t.core.layerMap, t.disk.meta)
    decreases o
  {
    ReleaseTurnMirrors(s, o, removed, depth, io);
    var r := ReleaseTurn(s, o, removed, depth, io);
    if r.Climb? {
      ReleaseLoopMirrors(r.s, r.parent, removed + [MetadataOf(s.core.objs, o)], depth + 1, io);
    }
  }

  lemma ReleaseLayerShadow(s: State, o: Obj, io: Faults)
    requires Wf(s.core) && o in s.core.objs && ShadowInv(s)
    ensures ShadowInv(ReleaseLayer(s, o, io).0)
  {
    ReleaseLoopMirrors(s, o, [], 0, io);
  }

  lemma CommitShadow(s: State, pid: Pid, l: RoLayer, ok: bool)
    requires Wf(s.core) && ValidParent(s.core.objs, l.parent) && ShadowInv(s)
    ensures ShadowInv(RegisterCommit(s, pid, l, ok))
  {
    var k := s.core;
    AddMirrors(k.objs, k.layerMap, s.disk.meta, k.nextObj, l);
    AddMirrorsMounts(k.objs, k.mounts, s.disk.mountMeta, s.disk.stale, k.nextObj, l);
  }

  /** The record of a mount that was saved completely is right exactly if the save overwrites whatever a
      failed one had left there. */
  lemma SavedRecordIsRight(d: Disk, objs: map<Obj, RoLayer>, name: string, m: Mount)
    requires ValidParent(objs, m.parent)
    ensures SaveMount(d, objs, name, m, 3) == MountMeta(m.mountID, m.initID, ParentChain(objs, m.parent))
       <==> Overwrites(d, name, m)
  {
  }

  lemma SavedMirrors(objs: map<Obj, RoLayer>, mounts: map<string, Mount>, d: Disk, name: string, m: Mount)
    requires MirrorsMounts(objs, mounts, d.mountMeta, d.stale) && ValidParent(objs, m.parent) && name !in mounts
    ensures var e := CreateRWDisk(d, objs, name, m, Saved);
      MirrorsMounts(objs, mounts[name := m], e.mountMeta, e.stale)
  {
    var e := CreateRWDisk(d, objs, name, m, Saved);
    SavedRecordIsRight(d, objs, name, m);
    assert name !in d.stale ==> MountMirrored(objs, mounts, d.mountMeta, name);
    forall n | n !in e.stale ensures MountMirrored(objs, mounts[name := m], e.mountMeta, n) {
      assert n != name ==> MountMirrored(objs, mounts, d.mountMeta, n);
    }
  }

  lemma UnsavedMirrors(objs: map<Obj, RoLayer>, mounts: map<string, Mount>, d: Disk, name: string, m: Mount,
                       out: CreateRW)
    requires MirrorsMounts(objs, mounts, d.mountMeta, d.stale) && ValidParent(objs, m.parent) && !out.Saved?
    ensures var e := CreateRWDisk(d, objs, name, m, out);
      MirrorsMounts(objs, mounts, e.mountMeta, e.stale)
  {
    var e := CreateRWDisk(d, objs, name, m, out);
    forall n | n !in e.stale ensures MountMirrored(objs, mounts, e.mountMeta, n) {
      assert MountMirrored(objs, mounts, d.mountMeta, n);
    }
  }

  lemma CreateRWFinishShadow(s: State, pid: Pid, name: string, parent: Option<Obj>,
                             mountID: string, initID: string, out: CreateRW)
    requires Wf(s.core) && ValidParent(s.core.objs, parent) && ShadowInv(s) && name !in s.core.mounts
    ensures ShadowInv(CreateRWFinish(s, pid, name, parent, mountID, initID, out))
  {
    var m := Mount(s.nextRW, mountID, initID, parent);
    if out.Saved? {
      SavedMirrors(s.core.objs, s.core.mounts, s.disk, name, m);
    } else {
      UnsavedMirrors(s.core.objs, s.core.mounts, s.disk, name, m, out);
    }
  }

  lemma ReleaseRWShadow(s: State, pid: Pid, h: RWHandle, fault: ReleaseRWFault)
    requires ShadowInv(s)
    ensures ShadowInv(ReleaseRW(s, pid, h, fault))
  {
    RemoveMirrorsMount(s.core.objs, s.core.mounts, s.disk.mountMeta, s.disk.stale, h.name);
    ReleaseRWMounts(s, pid, h, fault);
  }

  /** A mount leaves together with its metadata. */
  lemma ReleaseRWMounts(s: State, pid: Pid, h: RWHandle, fault: ReleaseRWFault)
    ensures var t, d := ReleaseRW(s, pid, h, fault), s.disk;
      || (t.core.mounts == s.core.mounts && t.disk.mountMeta == d.mountMeta && t.disk.stale == d.stale)
      || (t.core.mounts == s.core.mounts - {h.name} && t.disk.mountMeta == d.mountMeta - {h.name}
          && t.disk.stale == d.stale - {h.name})
  {
    if ReleaseRWResult(s, h, fault).MountRemoved? {
      RemovedDisk(s.disk, h.name, s.core.mounts[h.name], fault);
    } else if h.name in s.core.mounts {
      KeptDisk(s.disk, h.name, s.core.mounts[h.name], fault);
    }
  }

  lemma RemovedDisk(d: Disk, name: string, m: Mount, fault: ReleaseRWFault)
    requires !fault.MountRemoveFailed? && !fault.MetaRemoveFailed? && !(fault.InitRemoveFailed? && m.initID != "")
    ensures ReleaseRWDisk(d, name, m, fault).mountMeta == d.mountMeta - {name}
    ensures ReleaseRWDisk(d, name, m, fault).stale == d.stale - {name}
  {
  }

  lemma KeptDisk(d: Disk, name: string, m: Mount, fault: ReleaseRWFault)
    ensures fault.MountRemoveFailed? || fault.MetaRemoveFailed? || (fault.InitRemoveFailed? && m.initID != "") ==>
      ReleaseRWDisk(d, name, m, fault).mountMeta == d.mountMeta && ReleaseRWDisk(d, name, m, fault).stale == d.stale
  {
  }

  /** Steps that touch neither the map nor the mounts nor their metadata. */
  lemma FrameShadow(s: State, t: State)
    requires ShadowInv(s) && SameMap(s, t) && SameRW(s, t)
    ensures ShadowInv(t)
  {
  }

  lemma NextShadow(s: State, e: Step)
    requires Inv(s) && ShadowInv(s)
    ensures ShadowInv(Next(s, e))
  {
    if Enabled(s, e) {
      match e
      case SCommit(pid, ok) =>
        assert ValidParent(s.core.objs, s.core.procs[pid].Hold());
        CommitShadow(s, pid, s.core.procs[pid].layer, ok);
      case SUnwind(pid, io) =>
        var p := s.core.procs[pid];
        assert ValidParent(s.core.objs, p.Hold());
        ReleaseLayerShadow(s.(core := EndProc(s.core, pid), mountOwner := if p.mountLocked then None else s.mountOwner),
                           p.obj, io);
      case SRelease(h, io) => ReleaseShadow(s, h, io);
      case SCreateRWFinish(pid, mountID, initID, out) =>
        var p := s.core.procs[pid];
        assert ValidParent(s.core.objs, p.Hold());
        CreateRWFinishShadow(s, pid, p.name, p.parent, mountID, initID, out);
      case SReleaseRW(pid, h, fault) => ReleaseRWShadow(s, pid, h, fault);
      case SGetRW(_) =>
      case SMount(_, _) =>
      case SUnmount(_, _) =>
      case _ => FrameShadow(s, Next(s, e));
    }
  }

  lemma ReleaseShadow(s: State, h: Handle, io: Faults)
    requires Wf(s.core) && ShadowInv(s) && h.obj in s.core.objs
    ensures ShadowInv(Release(s, h, io).0)
  {
    ReleaseLayerShadow(s.(core := DropReference(s.core, h)), h.obj, io);
  }

  /** In every state of every run, whatever fails, the metadata store describes exactly the layers in
      the map, and exactly the mounts but for the stale names. */
  lemma {:induction false} RunShadow(s: State, steps: seq<Step>, t: State)
    requires Inv(s) && ShadowInv(s) && Reaches(s, steps, t)
    ensures Inv(t) && ShadowInv(t)
    decreases |steps|
  {
    if steps != [] {
      NextInv(s, steps[0]);
      NextShadow(s, steps[0]);
      RunShadow(Next(s, steps[0]), steps[1..], t);
    }
  }
}
