/**
 Content addressing in the layer store: every layer is keyed by the ChainID of its DiffIDs, chains
 are at most 125 layers deep, and a ChainID leads back to the DiffIDs it was made from.
 */
module LayerChains {
  import opened ChainIds
  import opened LayerState
  import opened LayerSafety

  /** The layer's identifiers are computed from its archive and from its parent. */
  ghost predicate Linked(h: Digest, objs: map<Obj, RoLayer>, l: RoLayer) {
    && ValidParent(objs, l.parent)
    && l.diffID == h(l.tar)
    && l.chainID == if l.parent.None? then l.diffID else h(Link(objs[l.parent.value].chainID, l.diffID))
  }

  ghost predicate Shallow(objs: map<Obj, RoLayer>, parent: Option<Obj>)
    requires Acyclic(objs)
  {
    parent.Some? ==> parent.value in objs && Depth(objs, parent.value) < MAX_LAYER_DEPTH
  }

  /** Which archives are registered; every statement below holds for any choice. */
  type Archives = string -> bool

  ghost predicate LayerOk(h: Digest, ok: Archives, objs: map<Obj, RoLayer>, l: RoLayer)
    requires Acyclic(objs)
  {
    Linked(h, objs, l) && Shallow(objs, l.parent) && ok(l.tar)
  }

  ghost predicate ProcOk(h: Digest, ok: Archives, objs: map<Obj, RoLayer>, p: Proc)
    requires Acyclic(objs)
  {
    match p
    case RegisterHeld(parent, tar) => Shallow(objs, parent) && ok(tar)
    case RegisterStored(l) => LayerOk(h, ok, objs, l)
    case _ => true
  }

  ghost predicate Addressed(h: Digest, ok: Archives, objs: map<Obj, RoLayer>, procs: map<Pid, Proc>) {
    && Acyclic(objs)
    && (forall o {:trigger objs[o]} :: o in objs ==> LayerOk(h, ok, objs, objs[o]))
    && (forall q :: q in procs ==> ProcOk(h, ok, objs, procs[q]))
  }

  // ----- Steps -----

  lemma {:induction false} DepthFrame(objs: map<Obj, RoLayer>, n: Obj, l: RoLayer, o: Obj)
    requires Acyclic(objs) && Acyclic(objs[n := l]) && n !in objs && o in objs
    ensures Depth(objs[n := l], o) == Depth(objs, o)
    decreases o
  {
    if objs[o].parent.Some? {
      DepthFrame(objs, n, l, objs[o].parent.value);
    }
  }

  lemma LayerOkFrame(h: Digest, ok: Archives, objs: map<Obj, RoLayer>, n: Obj, l: RoLayer, x: RoLayer)
    requires Acyclic(objs) && Acyclic(objs[n := l]) && n !in objs && LayerOk(h, ok, objs, x)
    ensures LayerOk(h, ok, objs[n := l], x)
  {
    if x.parent.Some? {
      DepthFrame(objs, n, l, x.parent.value);
    }
  }

  lemma ProcOkFrame(h: Digest, ok: Archives, objs: map<Obj, RoLayer>, n: Obj, l: RoLayer, p: Proc)
    requires Acyclic(objs) && Acyclic(objs[n := l]) && n !in objs && ProcOk(h, ok, objs, p)
    ensures ProcOk(h, ok, objs[n := l], p)
  {
    match p
    case RegisterHeld(parent, _) =>
      if parent.Some? { DepthFrame(objs, n, l, parent.value); }
    case RegisterStored(x) => LayerOkFrame(h, ok, objs, n, l, x);
    case _ =>
  }

  lemma AddLayerAddressed(h: Digest, ok: Archives, objs: map<Obj, RoLayer>, procs: map<Pid, Proc>, n: Obj, l: RoLayer)
    requires Addressed(h, ok, objs, procs) && LayerOk(h, ok, objs, l) && n !in objs
    requires l.parent.Some? ==> l.parent.value < n
    ensures Addressed(h, ok, objs[n := l], procs)
  {
    var objs' := objs[n := l];
    assert Acyclic(objs');
    forall o {:trigger objs'[o]} | o in objs' ensures LayerOk(h, ok, objs', objs'[o]) {
      LayerOkFrame(h, ok, objs, n, l, if o == n then l else objs[o]);
    }
    forall q | q in procs ensures ProcOk(h, ok, objs', procs[q]) {
      ProcOkFrame(h, ok, objs, n, l, procs[q]);
    }
  }

  lemma ChainNotEmpty(h: Digest, ok: Archives, objs: map<Obj, RoLayer>, procs: map<Pid, Proc>, o: Obj)
    requires LexicalDigest(h) && Addressed(h, ok, objs, procs) && o in objs
    ensures objs[o].chainID != "" && ' ' !in objs[o].chainID
  {
    assert LayerOk(h, ok, objs, objs[o]);
  }

  lemma NewLayerOk(h: Digest, ok: Archives, objs: map<Obj, RoLayer>, procs: map<Pid, Proc>, parent: Option<Obj>,
                   tar: string, id: string, size: int)
    requires LexicalDigest(h) && Addressed(h, ok, objs, procs) && Shallow(objs, parent) && ok(tar)
    ensures LayerOk(h, ok, objs, NewLayer(h, objs, parent, tar, id, size))
  {
    if parent.Some? {
      ChainNotEmpty(h, ok, objs, procs, parent.value);
      LinkOne(h, objs[parent.value].chainID, h(tar));
    }
  }

  /** Entries other than those of registrations carry no layer data. */
  lemma SetProcAddressed(h: Digest, ok: Archives, objs: map<Obj, RoLayer>, procs: map<Pid, Proc>, pid: Pid, pr: Proc)
    requires Addressed(h, ok, objs, procs) && ProcOk(h, ok, objs, pr)
    ensures Addressed(h, ok, objs, procs[pid := pr])
  {
  }

  lemma EndProcAddressed(h: Digest, ok: Archives, objs: map<Obj, RoLayer>, procs: map<Pid, Proc>, pid: Pid)
    requires Addressed(h, ok, objs, procs)
    ensures Addressed(h, ok, objs, procs - {pid})
  {
  }

  ghost predicate ChainInv(s: State, ok: Archives) {
    Addressed(s.digest, ok, s.core.objs, s.core.procs)
  }

  lemma RegisterBeginChain(s: State, ok: Archives, pid: Pid, parent: string, tar: string)
    requires ok(tar) && Wf(s.core) && ChainInv(s, ok)
    ensures ChainInv(RegisterBegin(s, pid, parent, tar), ok)
  {
    var h, objs, procs := s.digest, s.core.objs, s.core.procs;
    if parent == "" {
      SetProcAddressed(h, ok, objs, procs, pid, RegisterHeld(None, tar));
    } else if parent in s.core.layerMap {
      var p := s.core.layerMap[parent];
      SetProcAddressed(h, ok, objs, procs, pid,
                       if Depth(objs, p) >= MAX_LAYER_DEPTH then Unwinding(p, false) else RegisterHeld(Some(p), tar));
    }
  }

  lemma RegisterPrepareChain(s: State, ok: Archives, pid: Pid, prep: Prepare)
    requires Wf(s.core) && ChainInv(s, ok) && LexicalDigest(s.digest)
    requires pid in s.core.procs && s.core.procs[pid].RegisterHeld?
    requires ValidParent(s.core.objs, s.core.procs[pid].parent)
    ensures ChainInv(RegisterPrepare(s, pid, s.core.procs[pid].parent, s.core.procs[pid].tar, prep), ok)
  {
    var h, objs, procs := s.digest, s.core.objs, s.core.procs;
    var parent, tar := procs[pid].parent, procs[pid].tar;
    EndProcAddressed(h, ok, objs, procs, pid);
    var t := RegisterPrepare(s, pid, parent, tar, prep);
    if pid in t.core.procs {
      if prep.Prepared? {
        assert ProcOk(h, ok, objs, procs[pid]);
        NewLayerOk(h, ok, objs, procs, parent, tar, prep.cacheID, prep.size);
      }
      SetProcAddressed(h, ok, objs, procs, pid, t.core.procs[pid]);
    }
  }

  lemma RegisterCommitChain(s: State, ok: Archives, pid: Pid, done: bool)
    requires Wf(s.core) && ChainInv(s, ok) && pid in s.core.procs && s.core.procs[pid].RegisterStored?
    requires ValidParent(s.core.objs, s.core.procs[pid].layer.parent)
    ensures ChainInv(RegisterCommit(s, pid, s.core.procs[pid].layer, done), ok)
  {
    var h, objs, procs := s.digest, s.core.objs, s.core.procs;
    var l := procs[pid].layer;
    assert ProcOk(h, ok, objs, procs[pid]);
    EndProcAddressed(h, ok, objs, procs, pid);
    AddLayerAddressed(h, ok, objs, procs - {pid}, s.core.nextObj, l);
    SetProcAddressed(h, ok, objs, procs, pid, RegisterCleaning(l.parent, l.cacheID));
  }

  lemma UnwindChain(s: State, ok: Archives, pid: Pid, parent: Option<Obj>, locked: bool)
    requires ChainInv(s, ok)
    ensures ChainInv(Unwind(s, pid, parent, locked), ok)
  {
    EndProcAddressed(s.digest, ok, s.core.objs, s.core.procs, pid);
    if parent.Some? {
      SetProcAddressed(s.digest, ok, s.core.objs, s.core.procs, pid, Unwinding(parent.value, locked));
    }
  }

  lemma UnwindReleaseChain(s: State, ok: Archives, pid: Pid, o: Obj, locked: bool, io: Faults)
    requires Wf(s.core) && ChainInv(s, ok) && o in s.core.objs
    ensures ChainInv(UnwindRelease(s, pid, o, locked, io), ok)
  {
    EndProcAddressed(s.digest, ok, s.core.objs, s.core.procs, pid);
  }

  lemma CreateRWFinishChain(s: State, ok: Archives, pid: Pid, name: string, parent: Option<Obj>, mountID: string,
                            initID: string, out: CreateRW)
    requires ChainInv(s, ok) && ValidParent(s.core.objs, parent)
    ensures ChainInv(CreateRWFinish(s, pid, name, parent, mountID, initID, out), ok)
  {
    EndProcAddressed(s.digest, ok, s.core.objs, s.core.procs, pid);
    if !out.Saved? {
      var m := Mount(s.nextRW, mountID, initID, parent);
      UnwindChain(s.(disk := CreateRWDisk(s.disk, s.core.objs, name, m, out)), ok, pid, parent, true);
    }
  }

  lemma ReleaseRWChain(s: State, ok: Archives, pid: Pid, h: RWHandle, fault: ReleaseRWFault)
    requires ChainInv(s, ok)
    ensures ChainInv(ReleaseRW(s, pid, h, fault), ok)
  {
    if ReleaseRWResult(s, h, fault).MountRemoved? && s.core.mounts[h.name].parent.Some? {
      SetProcAddressed(s.digest, ok, s.core.objs, s.core.procs, pid,
                       Unwinding(s.core.mounts[h.name].parent.value, true));
    }
  }

  lemma BeginChain(s: State, ok: Archives, pid: Pid, chain: string, name: string)
    requires Wf(s.core) && ChainInv(s, ok)
    ensures ChainInv(GetBegin(s, pid, chain), ok) && ChainInv(CreateRWBegin(s, pid, name, chain), ok)
  {
    var h, objs, procs := s.digest, s.core.objs, s.core.procs;
    SetProcAddressed(h, ok, objs, procs, pid, CreateHeld(name, None));
    if chain in s.core.layerMap {
      SetProcAddressed(h, ok, objs, procs, pid, GetHeld(s.core.layerMap[chain]));
      SetProcAddressed(h, ok, objs, procs, pid, CreateHeld(name, Some(s.core.layerMap[chain])));
    }
  }

  lemma GetFinishChain(s: State, ok: Archives, pid: Pid, o: Obj)
    requires ChainInv(s, ok)
    ensures ChainInv(GetFinish(s, pid, o), ok)
  {
    EndProcAddressed(s.digest, ok, s.core.objs, s.core.procs, pid);
  }

  lemma NextChain(s: State, ok: Archives, e: Step)
    requires Wf(s.core) && ChainInv(s, ok) && LexicalDigest(s.digest) && (e.SRegister? ==> ok(e.tar))
    ensures ChainInv(Next(s, e), ok)
  {
    if Enabled(s, e) {
      match e
      case SRegister(pid, parent, tar) => RegisterBeginChain(s, ok, pid, parent, tar);
      case SPrepare(pid, prep) =>
        assert ValidParent(s.core.objs, s.core.procs[pid].Hold());
        RegisterPrepareChain(s, ok, pid, prep);
      case SCommit(pid, done) =>
        assert ValidParent(s.core.objs, s.core.procs[pid].Hold());
        RegisterCommitChain(s, ok, pid, done);
      case SCleanup(pid, done) =>
        var p := s.core.procs[pid];
        UnwindChain(if done then s.(disk := DriverRemove(s.disk, p.cacheID)) else s, ok, pid, p.parent, false);
      case SUnwind(pid, io) =>
        assert ValidParent(s.core.objs, s.core.procs[pid].Hold());
        UnwindReleaseChain(s, ok, pid, s.core.procs[pid].obj, s.core.procs[pid].mountLocked, io);
      case SGet(pid, chain) => BeginChain(s, ok, pid, chain, "");
      case SGetFinish(pid) => GetFinishChain(s, ok, pid, s.core.procs[pid].obj);
      case SRelease(_, _) =>
      case SCreateRW(pid, name, parent) => BeginChain(s, ok, pid, parent, name);
      case SCreateRWFinish(pid, mountID, initID, out) =>
        assert ValidParent(s.core.objs, s.core.procs[pid].Hold());
        CreateRWFinishChain(s, ok, pid, s.core.procs[pid].name, s.core.procs[pid].parent, mountID, initID, out);
      case SReleaseRW(pid, h, fault) => ReleaseRWChain(s, ok, pid, h, fault);
      case SGetRW(_) =>
      case SMount(_, _) =>
      case SUnmount(_, _) =>
    }
  }

  /** Every archive registered in the run is one of `ok`. */
  ghost predicate Registers(ok: Archives, steps: seq<Step>) {
    forall e :: e in steps && e.SRegister? ==> ok(e.tar)
  }

  lemma {:induction false} RunChain(s: State, ok: Archives, steps: seq<Step>, t: State)
    requires LexicalDigest(s.digest) && Reaches(s, steps, t) && ChainInv(s, ok) && Registers(ok, steps)
    ensures ChainInv(t, ok) && t.digest == s.digest
    decreases |steps|
  {
    if steps != [] {
      NextChain(s, ok, steps[0]);
      RunChain(Next(s, steps[0]), ok, steps[1..], t);
    }
  }

  // ----- What the chain invariant means -----

  function ChainTars(objs: map<Obj, RoLayer>, o: Obj): seq<string>
    requires Acyclic(objs) && o in objs
    decreases o
  {
    (if objs[o].parent.None? then [] else ChainTars(objs, objs[o].parent.value)) + [objs[o].tar]
  }

  lemma {:induction false} AddressedChain(h: Digest, ok: Archives, objs: map<Obj, RoLayer>, procs: map<Pid, Proc>,
                                          o: Obj)
    requires LexicalDigest(h) && Addressed(h, ok, objs, procs) && o in objs
    ensures ChainDiffIDs(objs, o) == DiffIDs(h, ChainTars(objs, o))
    ensures objs[o].chainID == CreateChainID(h, ChainDiffIDs(objs, o))
    ensures |ChainDiffIDs(objs, o)| == Depth(objs, o) <= MAX_LAYER_DEPTH
    decreases o
  {
    assert LayerOk(h, ok, objs, objs[o]);
    var d := objs[o].diffID;
    if objs[o].parent.None? {
      FoldLast(h, [], d);
      assert [] + [d] == [d];
    } else {
      var p := objs[o].parent.value;
      AddressedChain(h, ok, objs, procs, p);
      ChainNotEmpty(h, ok, objs, procs, p);
      FoldLast(h, ChainDiffIDs(objs, p), d);
    }
  }

  lemma {:induction false} ChainTarsOk(h: Digest, ok: Archives, objs: map<Obj, RoLayer>, procs: map<Pid, Proc>, o: Obj)
    requires Addressed(h, ok, objs, procs) && o in objs
    ensures forall j :: 0 <= j < |ChainTars(objs, o)| ==> ok(ChainTars(objs, o)[j])
    decreases o
  {
    assert LayerOk(h, ok, objs, objs[o]);
    if objs[o].parent.Some? {
      ChainTarsOk(h, ok, objs, procs, objs[o].parent.value);
    }
  }

  lemma AddressFindsContent(h: Digest, ok: Archives, k: Core, tars: seq<string>)
    requires LexicalDigest(h) && Injective(h) && Sound(k) && Addressed(h, ok, k.objs, k.procs)
    requires forall x :: ok(x) ==> !LooksLikeLink(h, x)
    requires forall j :: 0 <= j < |tars| ==> !LooksLikeLink(h, tars[j])
    requires CreateChainID(h, DiffIDs(h, tars)) in k.layerMap
    ensures ChainDiffIDs(k.objs, k.layerMap[CreateChainID(h, DiffIDs(h, tars))]) == DiffIDs(h, tars)
  {
    var o := k.layerMap[CreateChainID(h, DiffIDs(h, tars))];
    AddressedChain(h, ok, k.objs, k.procs, o);
    ChainTarsOk(h, ok, k.objs, k.procs, o);
    EqualChainIDsEqualDiffIDs(h, ChainTars(k.objs, o), tars);
  }

  // ----- Prefixes of a list of DiffIDs, whatever is in it -----

  /** A text whose digest leads from one prefix of the list to the next. */
  ghost predicate TextOfLink(h: Digest, ds: seq<string>, x: string) {
    exists i :: 1 <= i < |ds| && x == Link(CreateChainID(h, ds[..i]), ds[i])
  }

  lemma NoTextNoLink(h: Digest, ok: Archives, ds: seq<string>)
    requires forall x :: ok(x) ==> !TextOfLink(h, ds, x)
    ensures Unlinked(h, ok, ds)
  {
    forall i | 1 <= i < |ds| ensures !ok(Link(CreateChainID(h, ds[..i]), ds[i])) {
      assert TextOfLink(h, ds, Link(CreateChainID(h, ds[..i]), ds[i]));
    }
  }

  /** A layer that is addressed by a link has the layer the link names below it, unless an archive is the very
      text of the link. */
  lemma LayerBelow(h: Digest, ok: Archives, k: Core, below: string, d: string)
    requires LexicalDigest(h) && Injective(h) && Sound(k) && Addressed(h, ok, k.objs, k.procs)
    requires below != "" && !ok(Link(below, d)) && h(Link(below, d)) in k.layerMap
    ensures below in k.layerMap && IsChild(k.objs, k.layerMap, h(Link(below, d)), k.layerMap[below])
  {
    var o := k.layerMap[h(Link(below, d))];
    assert InMap(k.objs, k.layerMap, o);
    assert LayerOk(h, ok, k.objs, k.objs[o]);
    var p := k.objs[o].parent.value;
    ChainNotEmpty(h, ok, k.objs, k.procs, p);
    LinkInjective(k.objs[p].chainID, k.objs[o].diffID, below, d);
    assert ParentIn(k.objs, k.layerMap, k.objs[o].parent);
  }

  /** No archive is the text that leads from one prefix of the list to the next. */
  ghost predicate Unlinked(h: Digest, ok: Archives, ds: seq<string>) {
    forall i :: 1 <= i < |ds| ==> !ok(Link(CreateChainID(h, ds[..i]), ds[i]))
  }

  /** With the prefix after it, the set holds the prefix of length `i`. */
  ghost predicate StepDown(h: Digest, keys: set<string>, ds: seq<string>, i: nat)
    requires i < |ds|
  {
    CreateChainID(h, ds[..i]) != "" && CreateChainID(h, ds[..i + 1]) in keys ==> CreateChainID(h, ds[..i]) in keys
  }

  ghost predicate StepsDown(h: Digest, keys: set<string>, ds: seq<string>) {
    forall i :: 1 <= i < |ds| ==> StepDown(h, keys, ds, i)
  }

  lemma {:induction false} FoldNotEmpty(h: Digest, ds: seq<string>)
    requires LexicalDigest(h) && ds != [] && ds[0] != ""
    ensures CreateChainID(h, ds) != ""
  {
    var below, d := ds[..|ds| - 1], ds[|ds| - 1];
    assert ds == below + [d];
    FoldLast(h, below, d);
    if below != [] {
      FoldNotEmpty(h, below);
    }
  }

  /** Every prefix of a list that resolves resolves too, if the list does not start with an empty DiffID. */
  lemma {:induction false} PrefixesResolve(h: Digest, keys: set<string>, ds: seq<string>, n: nat)
    requires LexicalDigest(h) && StepsDown(h, keys, ds)
    requires 1 <= n <= |ds| && ds[0] != "" && CreateChainID(h, ds) in keys
    ensures CreateChainID(h, ds[..n]) in keys
    decreases |ds| - n
  {
    if n == |ds| {
      assert ds[..n] == ds;
    } else {
      PrefixesResolve(h, keys, ds, n + 1);
      FoldNotEmpty(h, ds[..n]);
      assert StepDown(h, keys, ds, n);
    }
  }
}
