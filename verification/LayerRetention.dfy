/**
 What stays in the layer map and what a release takes out of it.
 */
module LayerRetention {
  import opened ChainIds
  import opened LayerState
  import opened LayerSafety

  // ----- Exactly the needed layers are kept -----

  /** Held by something other than a child layer. */
  ghost predicate Pinned(k: Core, o: Obj) {
    HandlesOn(k.handles, o) != {} || MountsOn(k.mounts, o) != {} || HoldsOn(k.procs, o) != {}
  }

  ghost predicate AncestorOrSelf(objs: map<Obj, RoLayer>, a: Obj, o: Obj)
    requires Acyclic(objs) && o in objs
    decreases o
  {
    a == o || (objs[o].parent.Some? && AncestorOrSelf(objs, a, objs[o].parent.value))
  }

  ghost predicate Needed(k: Core, o: Obj)
    requires Acyclic(k.objs)
  {
    exists r :: r in k.objs && Pinned(k, r) && AncestorOrSelf(k.objs, o, r)
  }

  /** No layer lingers in the map with a count of zero. */
  ghost predicate Live(k: Core) {
    forall o :: InMap(k.objs, k.layerMap, o) ==> o in k.refCount && k.refCount[o] > 0
  }

  lemma PinnedInMap(k: Core, o: Obj)
    requires Sound(k) && Pinned(k, o)
    ensures InMap(k.objs, k.layerMap, o)
  {
    if HandlesOn(k.handles, o) != {} {
      var h :| h in HandlesOn(k.handles, o);
    } else if MountsOn(k.mounts, o) != {} {
      var n :| n in MountsOn(k.mounts, o);
      assert ParentIn(k.objs, k.layerMap, k.mounts[n].parent);
    } else {
      var q :| q in HoldsOn(k.procs, o);
      assert ParentIn(k.objs, k.layerMap, k.procs[q].Hold());
    }
  }

  lemma {:induction false} AncestorInMap(k: Core, a: Obj, o: Obj)
    requires Sound(k) && InMap(k.objs, k.layerMap, o) && AncestorOrSelf(k.objs, a, o)
    ensures InMap(k.objs, k.layerMap, a)
    decreases o
  {
    if a != o {
      assert ParentIn(k.objs, k.layerMap, k.objs[o].parent);
      AncestorInMap(k, a, k.objs[o].parent.value);
    }
  }

  lemma {:induction false} AncestorOfChild(objs: map<Obj, RoLayer>, a: Obj, c: Obj, o: Obj)
    requires Acyclic(objs) && o in objs && c in objs && objs[c].parent == Some(a) && AncestorOrSelf(objs, c, o)
    ensures AncestorOrSelf(objs, a, o)
    decreases o
  {
    if c != o {
      AncestorOfChild(objs, a, c, objs[o].parent.value);
    }
  }

  /** Below a layer in the map that is pinned, or that lingers because nothing refers to it and its removal
      failed, or was not asked for since a restart. */
  ghost predicate Kept(k: Core, o: Obj)
    requires Wf(k)
  {
    exists r :: InMap(k.objs, k.layerMap, r) && (Pinned(k, r) || k.refCount[r] == 0) && AncestorOrSelf(k.objs, o, r)
  }

  /** Follow children, which are allocated later, until a pinned or a lingering layer is met. */
  lemma {:induction false} InMapIsKept(k: Core, o: Obj)
    requires Good(k, None) && InMap(k.objs, k.layerMap, o)
    ensures Kept(k, o)
    decreases k.nextObj - o
  {
    if Pinned(k, o) || k.refCount[o] == 0 {
      assert AncestorOrSelf(k.objs, o, o);
    } else {
      assert |HandlesOn(k.handles, o)| == 0 && |MountsOn(k.mounts, o)| == 0 && |HoldsOn(k.procs, o)| == 0;
      var c :| c in ChildrenOf(k.objs, k.layerMap, o);
      var x := k.layerMap[c];
      assert InMap(k.objs, k.layerMap, x) && k.objs[x].parent == Some(o);
      InMapIsKept(k, x);
      var r :| InMap(k.objs, k.layerMap, r) && (Pinned(k, r) || k.refCount[r] == 0) && AncestorOrSelf(k.objs, x, r);
      AncestorOfChild(k.objs, o, x, r);
    }
  }

  /** Whatever failed and however often the daemon was restarted, the map holds exactly the ancestors of layers
      that are pinned or linger in it. */
  lemma MapIsExactlyKept(k: Core, o: Obj)
    requires Good(k, None) && o in k.objs
    ensures InMap(k.objs, k.layerMap, o) <==> Kept(k, o)
  {
    if InMap(k.objs, k.layerMap, o) {
      InMapIsKept(k, o);
    } else if Kept(k, o) {
      var r :| InMap(k.objs, k.layerMap, r) && (Pinned(k, r) || k.refCount[r] == 0) && AncestorOrSelf(k.objs, o, r);
      AncestorInMap(k, o, r);
    }
  }

  /** In a state without lingering layers the map holds exactly the ancestors of pinned layers. */
  lemma MapIsExactlyNeeded(k: Core, o: Obj)
    requires Good(k, None) && Live(k) && o in k.objs
    ensures InMap(k.objs, k.layerMap, o) <==> Needed(k, o)
  {
    MapIsExactlyKept(k, o);
    if Needed(k, o) {
      var r :| r in k.objs && Pinned(k, r) && AncestorOrSelf(k.objs, o, r);
      PinnedInMap(k, r);
    }
  }

  // ----- Runs whose removals succeed leave nothing lingering -----

  lemma ReleaseTurnLive(s: State, o: Obj, removed: seq<Metadata>, depth: nat)
    requires Good(s.core, Some(o)) && InMap(s.core.objs, s.core.layerMap, o) && Live(s.core)
    requires depth > 0 ==> removed != []
    ensures Live(ReleaseTurn(s, o, removed, depth, NoFaults).s.core)
  {
    LastReference(s.core, o);
    TurnCases(s, o, removed, depth, NoFaults);
    if s.core.refCount[o] == 1 {
      RemoveKeyMap(s.core.objs, s.core.layerMap, o);
    }
  }

  lemma {:induction false} ReleaseLoopLive(s: State, o: Obj, removed: seq<Metadata>, depth: nat)
    requires Good(s.core, Some(o)) && InMap(s.core.objs, s.core.layerMap, o) && Live(s.core)
    requires depth > 0 ==> removed != []
    ensures Live(ReleaseLoop(s, o, removed, depth, NoFaults).0.core)
    decreases o
  {
    ReleaseTurnLive(s, o, removed, depth);
    ReleaseTurnGood(s, o, removed, depth, NoFaults);
    var r := ReleaseTurn(s, o, removed, depth, NoFaults);
    if r.Climb? {
      ReleaseLoopLive(r.s, r.parent, removed + [MetadataOf(s.core.objs, o)], depth + 1);
    }
  }

  lemma UnwindReleaseLive(s: State, pid: Pid)
    requires Inv(s) && Live(s.core) && Enabled(s, SUnwind(pid, NoFaults))
    ensures Live(Next(s, SUnwind(pid, NoFaults)).core)
  {
    var p := s.core.procs[pid];
    EndHoldGood(s.core, pid);
    var t := s.(core := EndProc(s.core, pid), mountOwner := if p.mountLocked then None else s.mountOwner);
    ReleaseLoopLive(t, p.obj, [], 0);
  }

  lemma ReleaseLive(s: State, h: Handle)
    requires Inv(s) && Live(s.core) && h.obj in s.core.objs
    ensures Live(Release(s, h, NoFaults).0.core)
  {
    if h in s.core.handles && InMap(s.core.objs, s.core.layerMap, h.obj) {
      DropHandleGood(s.core, h);
      ReleaseLoopLive(s.(core := DropReference(s.core, h)), h.obj, [], 0);
    }
  }

  lemma CommitLive(s: State, pid: Pid, l: RoLayer, ok: bool)
    requires Good(s.core, None) && Live(s.core) && ValidParent(s.core.objs, l.parent)
    ensures Live(RegisterCommit(s, pid, l, ok).core)
  {
    if l.chainID !in s.core.layerMap {
      AddKeyMap(s.core.objs, s.core.layerMap, s.core.nextObj, l);
    }
  }

  /** Whether the removals of a step succeed. */
  predicate Faultless(e: Step) {
    (e.SUnwind? || e.SRelease?) ==> e.io == NoFaults
  }

  lemma AddRefLive(k: Core, o: Obj)
    requires Live(k) && o in k.refCount
    ensures Live(AddRef(k, o))
  {
  }

  lemma BeginLive(s: State, pid: Pid, chain: string, text: string)
    requires Wf(s.core) && Live(s.core)
    ensures Live(RegisterBegin(s, pid, chain, text).core)
    ensures Live(GetBegin(s, pid, chain).core)
    ensures Live(CreateRWBegin(s, pid, text, chain).core)
  {
    if chain in s.core.layerMap {
      AddRefLive(s.core, s.core.layerMap[chain]);
    }
  }

  lemma NextLive(s: State, e: Step)
    requires Inv(s) && Live(s.core) && Faultless(e)
    ensures Live(Next(s, e).core)
  {
    if Quiet(e) {
      QuietSameLayers(s, e);
    } else if Enabled(s, e) {
      match e
      case SRegister(pid, parent, tar) => BeginLive(s, pid, parent, tar);
      case SGet(pid, chain) => BeginLive(s, pid, chain, "");
      case SCreateRW(pid, name, parent) => BeginLive(s, pid, parent, name);
      case SUnwind(pid, _) => UnwindReleaseLive(s, pid);
      case SRelease(h, _) => ReleaseLive(s, h);
      case SCommit(pid, ok) =>
        assert ValidParent(s.core.objs, s.core.procs[pid].Hold());
        CommitLive(s, pid, s.core.procs[pid].layer, ok);
    }
  }

  lemma {:induction false} RunLive(s: State, steps: seq<Step>, t: State)
    requires Inv(s) && Live(s.core) && Reaches(s, steps, t)
    requires forall e :: e in steps ==> Faultless(e)
    ensures Inv(t) && Live(t.core)
    decreases |steps|
  {
    if steps != [] {
      NextInv(s, steps[0]);
      NextLive(s, steps[0]);
      RunLive(Next(s, steps[0]), steps[1..], t);
    }
  }

  /** Over every run from the empty store in which driver and metadata removals succeed, the map is
      exactly the set of layers below a handle, a mount or an operation in flight. */
  lemma NothingLostNothingLeaked(h: Digest, steps: seq<Step>, t: State, o: Obj)
    requires Reaches(Init(h), steps, t)
    requires forall e :: e in steps ==> Faultless(e)
    requires Acyclic(t.core.objs) && o in t.core.objs
    ensures InMap(t.core.objs, t.core.layerMap, o) <==> Needed(t.core, o)
  {
    InitInv(h);
    RunLive(Init(h), steps, t);
    MapIsExactlyNeeded(t.core, o);
  }

  // ----- What a release removes -----

  /** The layer and its next `n - 1` ancestors. */
  ghost predicate IsPath(objs: map<Obj, RoLayer>, path: seq<Obj>) {
    && (forall i :: 0 <= i < |path| ==> path[i] in objs)
    && (forall i :: 0 <= i < |path| - 1 ==> objs[path[i]].parent == Some(path[i + 1]))
  }

  ghost function Chains(objs: map<Obj, RoLayer>, path: seq<Obj>): set<string>
    requires IsPath(objs, path)
  {
    if path == [] then {} else {objs[path[0]].chainID} + Chains(objs, path[1..])
  }

  function Metadatas(objs: map<Obj, RoLayer>, path: seq<Obj>): seq<Metadata>
    requires Acyclic(objs) && forall i :: 0 <= i < |path| ==> path[i] in objs
  {
    if path == [] then [] else [MetadataOf(objs, path[0])] + Metadatas(objs, path[1..])
  }

  /** `path` is what one call of `releaseLayer` on `o` took out of the map. */
  ghost predicate IsRemoval(k: Core, o: Obj, path: seq<Obj>, m: Core) {
    && IsPath(k.objs, path)
    && (path != [] ==> path[0] == o)
    && (forall i :: 0 <= i < |path| ==> InMap(k.objs, k.layerMap, path[i]))
    && m.layerMap == k.layerMap - Chains(k.objs, path)
  }

  /** A successful release reports the layers of `path`, after those removed before. */
  ghost predicate Reports(objs: map<Obj, RoLayer>, removed: seq<Metadata>, path: seq<Obj>, res: ReleaseResult)
    requires Acyclic(objs) && forall i :: 0 <= i < |path| ==> path[i] in objs
  {
    res.Removed? ==> res.layers == removed + Metadatas(objs, path)
  }

  lemma ConsRemoval(k: Core, o: Obj, rest: seq<Obj>, k': Core, m: Core, removed: seq<Metadata>, res: ReleaseResult)
    requires Acyclic(k.objs) && Keyed(k.objs, k.layerMap) && InMap(k.objs, k.layerMap, o) && k.objs[o].parent.Some?
    requires k'.objs == k.objs && k'.layerMap == k.layerMap - {k.objs[o].chainID}
    requires IsRemoval(k', k.objs[o].parent.value, rest, m)
    requires Reports(k.objs, removed + [MetadataOf(k.objs, o)], rest, res)
    ensures IsRemoval(k, o, [o] + rest, m)
    ensures Reports(k.objs, removed, [o] + rest, res)
  {
    var path, ms := [o] + rest, Metadatas(k.objs, rest);
    assert path[1..] == rest;
    RemoveKeyMap(k.objs, k.layerMap, o);
    assert k.layerMap - Chains(k.objs, path) == k'.layerMap - Chains(k.objs, rest);
    assert removed + [MetadataOf(k.objs, o)] + ms == removed + ([MetadataOf(k.objs, o)] + ms);
  }

  lemma LastRemoval(k: Core, o: Obj, m: Core, removed: seq<Metadata>, res: ReleaseResult) returns (path: seq<Obj>)
    requires Acyclic(k.objs) && InMap(k.objs, k.layerMap, o)
    requires || (m.layerMap == k.layerMap && (res == Removed(removed) || res == Failed))
             || (m.layerMap == k.layerMap - {k.objs[o].chainID} && res == Removed(removed + [MetadataOf(k.objs, o)]))
    ensures IsRemoval(k, o, path, m) && Reports(k.objs, removed, path, res)
  {
    path := if m.layerMap == k.layerMap then [] else [o];
  }

  /** A release takes one contiguous run of layers out of the map, child first, and when it succeeds
      it reports exactly these. */
  lemma {:induction false} ReleaseLoopPath(s: State, o: Obj, removed: seq<Metadata>, depth: nat, io: Faults)
    returns (path: seq<Obj>)
    requires Good(s.core, Some(o)) && InMap(s.core.objs, s.core.layerMap, o)
    requires depth > 0 ==> removed != []
    ensures IsRemoval(s.core, o, path, ReleaseLoop(s, o, removed, depth, io).0.core)
    ensures Reports(s.core.objs, removed, path, ReleaseLoop(s, o, removed, depth, io).1)
    decreases o
  {
    ReleaseTurnGood(s, o, removed, depth, io);
    var r := ReleaseTurn(s, o, removed, depth, io);
    if r.Climb? {
      var more := removed + [MetadataOf(s.core.objs, o)];
      var rest := ReleaseLoopPath(r.s, r.parent, more, depth + 1, io);
      var (t, res) := ReleaseLoop(r.s, r.parent, more, depth + 1, io);
      ConsRemoval(s.core, o, rest, r.s.core, t.core, removed, res);
      path := [o] + rest;
    } else {
      path := LastRemoval(s.core, o, r.s.core, removed, r.result);
    }
  }

  lemma {:induction false} MetadatasAt(objs: map<Obj, RoLayer>, path: seq<Obj>)
    requires Acyclic(objs) && IsPath(objs, path)
    ensures |Metadatas(objs, path)| == |path|
    ensures forall i :: 0 <= i < |path| ==> Metadatas(objs, path)[i] == MetadataOf(objs, path[i])
    ensures forall i {:trigger Metadatas(objs, path)[i].diffSize} :: 0 <= i < |path| - 1 ==>
      Metadatas(objs, path)[i].size == Metadatas(objs, path)[i].diffSize + Metadatas(objs, path)[i + 1].size
  {
    if path != [] {
      var rest := path[1..];
      assert IsPath(objs, rest) by {
        forall i | 0 <= i < |rest| - 1 ensures objs[rest[i]].parent == Some(rest[i + 1]) {
          assert rest[i] == path[i + 1] && rest[i + 1] == path[i + 2];
        }
      }
      MetadatasAt(objs, rest);
      var ms := Metadatas(objs, path);
      forall i | 0 <= i < |path| ensures ms[i] == MetadataOf(objs, path[i]) {
        assert i > 0 ==> ms[i] == Metadatas(objs, rest)[i - 1] && path[i] == rest[i - 1];
      }
    }
  }

  // ----- What a release reports -----

  /** The metadata name the layer, with its own size and that of its whole chain. */
  ghost predicate Describes(objs: map<Obj, RoLayer>, o: Obj, m: Metadata)
    requires Acyclic(objs) && o in objs
  {
    var l := objs[o];
    && m.chainID == l.chainID && m.diffID == l.diffID && m.diffSize == l.size
    && m.size == l.size + if l.parent.None? then 0 else Size(objs, l.parent.value)
  }

  lemma ReleaseRemoves(s: State, h: Handle, io: Faults) returns (path: seq<Obj>)
    requires Inv(s) && h in s.core.handles
    ensures Release(s, h, io).1.Released? && !Release(s, h, io).1.result.Panic?
    ensures IsRemoval(s.core, h.obj, path, Release(s, h, io).0.core)
    ensures Reports(s.core.objs, [], path, Release(s, h, io).1.result)
    ensures Release(s, h, io).0.core.handles == s.core.handles - {h}
    ensures Release(s, h, io).0.core.nextId == s.core.nextId
  {
    assert InMap(s.core.objs, s.core.layerMap, h.obj);
    var t := s.(core := DropReference(s.core, h));
    DropHandleGood(s.core, h);
    ReleaseLayerGood(t, h.obj, io);
    path := ReleaseLoopPath(t, h.obj, [], 0, io);
  }

  /** `Release` of a live handle: the reported layers are the ones that left the map, from the
      released layer upwards, each with its identifiers and its own size, and each reported size is the
      layer's own plus the size of its parent, which is the one reported next. */
  lemma ReleaseReportsRemoved(s: State, h: Handle, io: Faults) returns (path: seq<Obj>)
    requires Inv(s) && h in s.core.handles && Release(s, h, io).1.Released?
    requires Release(s, h, io).1.result.Removed?
    ensures IsRemoval(s.core, h.obj, path, Release(s, h, io).0.core)
    ensures var ms := Release(s, h, io).1.result.layers;
            && |ms| == |path|
            && (forall i :: 0 <= i < |ms| ==> Describes(s.core.objs, path[i], ms[i]))
            && (forall i {:trigger ms[i].diffSize} :: 0 <= i < |ms| - 1 ==>
                  ms[i].size == ms[i].diffSize + ms[i + 1].size)
  {
    path := ReleaseRemoves(s, h, io);
    ReportsDescribe(s.core.objs, path, Release(s, h, io).1.result);
  }

  lemma ReportsDescribe(objs: map<Obj, RoLayer>, path: seq<Obj>, res: ReleaseResult)
    requires Acyclic(objs) && IsPath(objs, path) && res.Removed? && Reports(objs, [], path, res)
    ensures var ms := res.layers;
            && |ms| == |path|
            && (forall i :: 0 <= i < |ms| ==> Describes(objs, path[i], ms[i]))
            && (forall i {:trigger ms[i].diffSize} :: 0 <= i < |ms| - 1 ==>
                  ms[i].size == ms[i].diffSize + ms[i + 1].size)
  {
    assert res.layers == Metadatas(objs, path);
    SizesAddUp(objs, path);
    AllDescribed(objs, path);
  }

  lemma SizesAddUp(objs: map<Obj, RoLayer>, path: seq<Obj>)
    requires Acyclic(objs) && IsPath(objs, path)
    ensures |Metadatas(objs, path)| == |path|
    ensures forall i {:trigger Metadatas(objs, path)[i].diffSize} :: 0 <= i < |path| - 1 ==>
      Metadatas(objs, path)[i].size == Metadatas(objs, path)[i].diffSize + Metadatas(objs, path)[i + 1].size
  {
    MetadatasAt(objs, path);
  }

  lemma AllDescribed(objs: map<Obj, RoLayer>, path: seq<Obj>)
    requires Acyclic(objs) && IsPath(objs, path)
    ensures |Metadatas(objs, path)| == |path|
    ensures forall i :: 0 <= i < |path| ==> Describes(objs, path[i], Metadatas(objs, path)[i])
  {
    MetadatasAt(objs, path);
    forall i | 0 <= i < |path| ensures Describes(objs, path[i], Metadatas(objs, path)[i]) {
      MetadataDescribes(objs, path[i]);
    }
  }

  lemma MetadataDescribes(objs: map<Obj, RoLayer>, o: Obj)
    requires Acyclic(objs) && o in objs
    ensures Describes(objs, o, MetadataOf(objs, o))
  {
  }

  // ----- Released handles stay released -----

  ghost predicate OnlyFreshHandles(k: Core, m: Core) {
    && k.nextId <= m.nextId
    && forall h :: h in m.handles ==> h in k.handles || h.id >= k.nextId
  }

  lemma ReleasingHandles(s: State, e: Step)
    requires Inv(s) && Enabled(s, e) && (e.SUnwind? || e.SRelease?)
    ensures OnlyFreshHandles(s.core, Next(s, e).core)
  {
    match e
    case SUnwind(pid, io) =>
      assert ValidParent(s.core.objs, s.core.procs[pid].Hold());
      UnwindReleaseGood(s, pid, io);
    case SRelease(h, io) =>
      if h in s.core.handles {
        var _ := ReleaseRemoves(s, h, io);
      }
  }

  lemma NextHandles(s: State, e: Step)
    requires Inv(s)
    ensures OnlyFreshHandles(s.core, Next(s, e).core)
  {
    if Enabled(s, e) {
      match e
      case SUnwind(_, _) => ReleasingHandles(s, e);
      case SRelease(_, _) => ReleasingHandles(s, e);
      case _ =>
    }
  }

  /** Once released, a handle is dead for the rest of the run: a later `Release` of it changes no
      count and removes nothing, even if its ChainID has been registered again since. */
  lemma {:induction false} ReleasedStaysReleased(s: State, steps: seq<Step>, t: State, x: Handle, io: Faults)
    requires Inv(s) && Reaches(s, steps, t)
    requires x !in s.core.handles && x.id < s.core.nextId
    ensures Inv(t) && x !in t.core.handles
    ensures Next(t, SRelease(x, io)) == t
    decreases |steps|
  {
    if steps != [] {
      NextInv(s, steps[0]);
      NextHandles(s, steps[0]);
      ReleasedStaysReleased(Next(s, steps[0]), steps[1..], t, x, io);
    }
  }
}
