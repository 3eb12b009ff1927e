/**
 The layer store over the lives of the daemon: runs with a restart from the metadata between one and the
 next.  Everything that holds over the runs of the first life holds over all of them.
 */
module LayerLives {
  import opened ChainIds
  import opened LayerState
  import opened LayerSafety
  import opened LayerRetention
  import opened LayerChains
  import opened WritableLayers
  import opened LayerShadow
  import opened LayerReload
  import Calls = LayerRegister
  import Answers = LayerAnswers

  /** What is so at any time of any life. */
  ghost predicate FullInv(s: State, ok: Archives) {
    Inv(s) && ShadowInv(s) && ChainInv(s, ok) && WritableInv(s)
  }

  /** The daemon goes down in state `s`, whatever is in flight, and comes up in state `t`. */
  ghost predicate Restarts(s: State, t: State) {
    && t.digest == s.digest && t.disk == s.disk && !t.panicked && t.mountOwner == None && t.rwRefs == {}
    && t.rw == map[]
    && Ranked(s.disk.meta, RankOf(s.core.layerMap))
    && Reloaded(t.core, s.disk.meta, s.disk.mountMeta, RankOf(s.core.layerMap))
  }

  /** One run after the other, with a restart in between. */
  ghost predicate Lives(s: State, lives: seq<seq<Step>>, t: State)
    decreases |lives|
  {
    if lives == [] then s == t
    else if |lives| == 1 then Reaches(s, lives[0], t)
    else exists n :: Life(s, lives[0], n) && Lives(n, lives[1..], t)
  }

  ghost predicate AllRegister(ok: Archives, lives: seq<seq<Step>>)
    decreases |lives|
  {
    lives == [] || (Registers(ok, lives[0]) && AllRegister(ok, lives[1..]))
  }

  /** A run and the restart after it. */
  ghost predicate Life(s: State, steps: seq<Step>, n: State) {
    exists m :: Reaches(s, steps, m) && Restarts(m, n)
  }

  lemma FullShadowed(s: State, ok: Archives)
    requires FullInv(s, ok) && LexicalDigest(s.digest)
    ensures Shadowed(s) && Ranked(s.disk.meta, RankOf(s.core.layerMap))
  {
    forall o | o in s.core.objs ensures s.core.objs[o].chainID != "" {
      ChainNotEmpty(s.digest, ok, s.core.objs, s.core.procs, o);
    }
    MirrorRanked(s);
  }

  // ----- A restart keeps the invariants -----

  lemma RestartShadowLayers(s: State, k: Core)
    requires RebuiltFrom(s, k)
    ensures Mirrors(k.objs, k.layerMap, s.disk.meta)
  {
    RebuiltKeys(s, k);
    forall c | c in k.layerMap && c in s.disk.meta ensures Described(k.objs, k.layerMap[c], s.disk.meta[c]) {
      assert FromMeta(k.objs, k.layerMap, c, s.disk.meta[c]);
    }
  }

  lemma RestartShadowMount(s: State, k: Core, name: string)
    requires RebuiltFrom(s, k) && name !in s.disk.stale
    ensures MountMirrored(k.objs, k.mounts, s.disk.mountMeta, name)
  {
    RebuiltMount(s, k, name);
    assert MountMirrored(s.core.objs, s.core.mounts, s.disk.mountMeta, name);
    if name in k.mounts {
      assert MountFromMeta(k.layerMap, k.mounts[name], s.disk.mountMeta[name]);
    }
  }

  lemma RestartShadow(s: State, t: State)
    requires Shadowed(s) && Restarts(s, t)
    ensures ShadowInv(t)
  {
    RestartShadowLayers(s, t.core);
    forall n | n !in s.disk.stale ensures MountMirrored(t.core.objs, t.core.mounts, s.disk.mountMeta, n) {
      RestartShadowMount(s, t.core, n);
    }
  }

  lemma {:induction false} TwinDepth(k: Core, n: Core, c: string)
    requires Twins(k, n) && c in k.layerMap
    ensures k.layerMap[c] in k.objs && n.layerMap[c] in n.objs
    ensures Depth(n.objs, n.layerMap[c]) == Depth(k.objs, k.layerMap[c])
    decreases k.layerMap[c]
  {
    assert TwinLayer(k, n, c);
    var p := k.objs[k.layerMap[c]].parent;
    if p.Some? {
      TwinDepth(k, n, k.objs[p.value].chainID);
    }
  }

  /** The twin of a content-addressed layer is content-addressed. */
  lemma TwinLayerOk(h: Digest, ok: Archives, k: Core, n: Core, c: string)
    requires Twins(k, n) && c in k.layerMap && Keyed(k.objs, k.layerMap)
    requires LayerOk(h, ok, k.objs, k.objs[k.layerMap[c]])
    ensures n.layerMap[c] in n.objs && LayerOk(h, ok, n.objs, n.objs[n.layerMap[c]])
  {
    assert TwinLayer(k, n, c);
    var p := k.objs[k.layerMap[c]].parent;
    if p.Some? {
      var d := k.objs[p.value].chainID;
      assert TwinLayer(k, n, d);
      TwinDepth(k, n, d);
    }
  }

  lemma RestartChain(s: State, t: State, ok: Archives)
    requires Shadowed(s) && ChainInv(s, ok) && Restarts(s, t)
    ensures ChainInv(t, ok)
  {
    RebuiltTwins(s, t.core);
    var k, n := s.core, t.core;
    forall o {:trigger n.objs[o]} | o in n.objs ensures LayerOk(s.digest, ok, n.objs, n.objs[o]) {
      var c := n.objs[o].chainID;
      assert InMap(n.objs, n.layerMap, o) && c in k.layerMap;
      TwinLayerOk(s.digest, ok, k, n, c);
    }
  }

  lemma RestartInv(s: State, t: State)
    requires Restarts(s, t)
    ensures Inv(t)
  {
  }

  lemma RestartFull(s: State, t: State, ok: Archives)
    requires FullInv(s, ok) && LexicalDigest(s.digest) && Restarts(s, t)
    ensures FullInv(t, ok)
  {
    FullShadowed(s, ok);
    RestartInv(s, t);
    RestartShadow(s, t);
    RestartChain(s, t, ok);
  }

  // ----- Lives -----

  lemma {:induction false} RunFull(s: State, ok: Archives, steps: seq<Step>, t: State)
    requires FullInv(s, ok) && LexicalDigest(s.digest) && Registers(ok, steps) && Reaches(s, steps, t)
    ensures FullInv(t, ok) && t.digest == s.digest
  {
    RunShadow(s, steps, t);
    RunWritable(s, steps, t);
    RunChain(s, ok, steps, t);
  }

  lemma {:induction false} LivesFull(s: State, ok: Archives, lives: seq<seq<Step>>, t: State)
    requires FullInv(s, ok) && LexicalDigest(s.digest) && Lives(s, lives, t)
    requires AllRegister(ok, lives)
    ensures FullInv(t, ok) && t.digest == s.digest
    decreases |lives|
  {
    if |lives| == 1 {
      RunFull(s, ok, lives[0], t);
    } else if |lives| > 1 {
      var n :| Life(s, lives[0], n) && Lives(n, lives[1..], t);
      LifeFull(s, ok, lives[0], n);
      LivesFull(n, ok, lives[1..], t);
    }
  }

  lemma LifeFull(s: State, ok: Archives, steps: seq<Step>, n: State)
    requires FullInv(s, ok) && LexicalDigest(s.digest) && Registers(ok, steps) && Life(s, steps, n)
    ensures FullInv(n, ok) && n.digest == s.digest
  {
    var m :| Reaches(s, steps, m) && Restarts(m, n);
    RunFull(s, ok, steps, m);
    RestartFull(m, n, ok);
  }

  lemma InitFull(h: Digest, ok: Archives)
    ensures FullInv(Init(h), ok)
  {
    InitInv(h);
  }

  lemma {:induction false} AnyRegister(lives: seq<seq<Step>>)
    ensures AllRegister((x: string) => true, lives)
    decreases |lives|
  {
    if lives != [] {
      AnyRegister(lives[1..]);
    }
  }

  /** A state of any life, whichever archives were registered. */
  lemma LivesInv(h: Digest, lives: seq<seq<Step>>, t: State)
    requires LexicalDigest(h) && Lives(Init(h), lives, t)
    ensures FullInv(t, (x: string) => true) && t.digest == h
  {
    InitFull(h, (x: string) => true);
    AnyRegister(lives);
    LivesFull(Init(h), (x: string) => true, lives, t);
  }

  /** In every state of every life each layer in the map is counted exactly once for each handle, child,
      mount and hold, and no panic was reached. */
  lemma CountsAcrossLives(h: Digest, lives: seq<seq<Step>>, t: State)
    requires LexicalDigest(h) && Lives(Init(h), lives, t)
    ensures Inv(t) && !t.panicked
    ensures forall c :: c in t.core.layerMap ==>
      t.core.refCount[t.core.layerMap[c]] == References(t.core, t.core.layerMap[c])
  {
    LivesInv(h, lives, t);
    forall c | c in t.core.layerMap ensures InMap(t.core.objs, t.core.layerMap, t.core.layerMap[c]) {}
  }

  /** In every state of every life, each layer is addressed by the DiffIDs of its chain, root to top, and
      chains are at most 125 layers deep. */
  lemma LayersAreContentAddressed(h: Digest, lives: seq<seq<Step>>, t: State, o: Obj)
    requires LexicalDigest(h) && Lives(Init(h), lives, t) && Acyclic(t.core.objs) && o in t.core.objs
    ensures var objs := t.core.objs;
      && objs[o].chainID == CreateChainID(h, ChainDiffIDs(objs, o))
      && ChainDiffIDs(objs, o) == DiffIDs(h, ChainTars(objs, o))
      && |ChainDiffIDs(objs, o)| == Depth(objs, o) <= 125
  {
    LivesInv(h, lives, t);
    AddressedChain(h, (x: string) => true, t.core.objs, t.core.procs, o);
  }

  /** Content is stored once: two layers in the map are the same if and only if their chains are. */
  lemma StoredOnce(h: Digest, lives: seq<seq<Step>>, t: State, a: Obj, b: Obj)
    requires LexicalDigest(h) && Lives(Init(h), lives, t) && Acyclic(t.core.objs)
    requires InMap(t.core.objs, t.core.layerMap, a) && InMap(t.core.objs, t.core.layerMap, b)
    ensures a == b <==> ChainDiffIDs(t.core.objs, a) == ChainDiffIDs(t.core.objs, b)
  {
    LayersAreContentAddressed(h, lives, t, a);
    LayersAreContentAddressed(h, lives, t, b);
  }

  /** No archive registered in any life is of the form of a link. */
  ghost predicate Archival(h: Digest, lives: seq<seq<Step>>) {
    AllRegister((x: string) => !LooksLikeLink(h, x), lives)
  }

  /** Looking up the ChainID of a list of archives finds a layer made of exactly these archives'
      DiffIDs, if the digest has no collisions. */
  lemma LookupFindsContent(h: Digest, lives: seq<seq<Step>>, t: State, tars: seq<string>)
    requires LexicalDigest(h) && Injective(h) && Lives(Init(h), lives, t) && Archival(h, lives) && Wf(t.core)
    requires forall j :: 0 <= j < |tars| ==> !LooksLikeLink(h, tars[j])
    requires CreateChainID(h, DiffIDs(h, tars)) in t.core.layerMap
    ensures var k := t.core;
      ChainDiffIDs(k.objs, k.layerMap[CreateChainID(h, DiffIDs(h, tars))]) == DiffIDs(h, tars)
  {
    var ok: Archives := (x: string) => !LooksLikeLink(h, x);
    InitFull(h, ok);
    LivesFull(Init(h), ok, lives, t);
    AddressFindsContent(h, ok, t.core, tars);
  }

  /** In every state of every life, a `Register` that succeeds gives a handle on a layer made of the parent's DiffIDs
      and that of the archive, whether the layer is new or was there already. */
  lemma RegisterGivesContent(h: Digest, lives: seq<seq<Step>>, s: State, parent: string, tar: string, prep: Prepare,
                             commitOk: bool, removeOk: bool, io: Faults)
    requires LexicalDigest(h) && Injective(h) && Lives(Init(h), lives, s) && Archival(h, lives)
    requires !LooksLikeLink(h, tar) && Wf(s.core)
    requires Calls.Register(s, parent, tar, prep, commitOk, removeOk, io).1.Registered?
    ensures var (t, r) := Calls.Register(s, parent, tar, prep, commitOk, removeOk, io);
      var o := r.handle.obj;
      && Wf(t.core) && r.handle in t.core.handles && InMap(t.core.objs, t.core.layerMap, o)
      && (parent == "" || parent in s.core.layerMap)
      && ChainDiffIDs(t.core.objs, o)
         == (if parent == "" then [] else ChainDiffIDs(s.core.objs, s.core.layerMap[parent])) + [h(tar)]
  {
    var ok: Archives := (x: string) => !LooksLikeLink(h, x);
    InitFull(h, ok);
    LivesFull(Init(h), ok, lives, s);
    Answers.RegisteredContent(s, ok, parent, tar, prep, commitOk, removeOk, io);
  }

  /** In every state of every life the map holds exactly the ancestors of layers that are pinned by a handle, a
      mount or an operation in flight, or that linger in it with nothing that refers to them. */
  lemma NothingElseIsKept(h: Digest, lives: seq<seq<Step>>, t: State, o: Obj)
    requires LexicalDigest(h) && Lives(Init(h), lives, t) && Wf(t.core) && o in t.core.objs
    ensures InMap(t.core.objs, t.core.layerMap, o) <==> Kept(t.core, o)
  {
    LivesInv(h, lives, t);
    MapIsExactlyKept(t.core, o);
  }

  // ----- Writable layers -----

  /** In any state of any life, when the driver layer of a mount is removed, every handle made on that mount in
      this life has been released, and as many driver mounts were given back on its behalf as were obtained,
      except for those whose Put failed.  Handles do not outlive the daemon: of a mount that the driver was left
      with by an earlier life nothing is known. */
  lemma RemovedOnlyWhenUnmounted(h: Digest, lives: seq<seq<Step>>, s: State, pid: Pid, x: RWHandle,
                                 fault: ReleaseRWFault, g: RWHandle)
    requires LexicalDigest(h) && Lives(Init(h), lives, s) && RemovesMount(s, x, fault)
    requires g in s.rw && g.name == x.name && g.mount == x.mount
    ensures var a := ReleaseRW(s, pid, x, fault).rw;
      g in a && a[g].count == -1 && a[g].getsOk <= a[g].putsOk + a[g].putsFailed
  {
    LivesInv(h, lives, s);
    RemovesReleased(s, pid, x, fault, g);
  }

  /** A live handle is refused its release exactly if more driver mounts were asked for on its behalf than
      were given back.  That tells the truth about mounts the driver has made and not taken back exactly if
      failed Gets and failed Puts balance, or the number of these mounts is outside the gap between them:
      with an excess of failed Gets a handle without a mount is refused, with an excess of failed Puts one
      with a mount is not. */
  lemma RefusedIffUnbalanced(h: Digest, lives: seq<seq<Step>>, s: State, x: RWHandle, fault: ReleaseRWFault)
    requires LexicalDigest(h) && Lives(Init(h), lives, s) && x in s.rwRefs
    ensures x in s.rw
    ensures ReleaseRWResult(s, x, fault) == ActiveMount
       <==> s.rw[x].getsOk + s.rw[x].getsFailed > s.rw[x].putsOk + s.rw[x].putsFailed
    ensures var m, f := Outstanding(s.rw[x]), Excess(s.rw[x]);
      (ReleaseRWResult(s, x, fault) == ActiveMount <==> m > 0) <==> f == 0 || !(-f < m <= 0 || 0 < m <= -f)
  {
    LivesInv(h, lives, s);
    RefusedIff(s, x, fault);
  }

  // ----- Restarts -----

  /** Restart round trip: from any state of any life, whatever failed and whatever is in flight, a restart
      gives back exactly the layers that were in the map, with their parents, identifiers and sizes, and
      every mount whose record is right. */
  lemma RestartRoundTrip(h: Digest, lives: seq<seq<Step>>, s: State, t: State)
    requires LexicalDigest(h) && Lives(Init(h), lives, s) && Restarts(s, t)
    ensures Good(t.core, None) && Twins(s.core, t.core)
    ensures forall c :: c in s.core.layerMap ==>
      s.core.layerMap[c] in s.core.objs && t.core.layerMap[c] in t.core.objs &&
      Size(t.core.objs, t.core.layerMap[c]) == Size(s.core.objs, s.core.layerMap[c])
    ensures forall name :: name !in s.disk.stale ==> TwinMount(s.core, t.core, name)
  {
    LivesInv(h, lives, s);
    FullShadowed(s, (x: string) => true);
    RebuiltIsTwin(s, t.core);
  }

  /** No `saveMount` fails half-way. */
  ghost predicate Saves(steps: seq<Step>) {
    forall e :: e in steps ==> !(e.SCreateRWFinish? && e.out.SaveFailed?)
  }

  ghost predicate AllSave(lives: seq<seq<Step>>)
    decreases |lives|
  {
    lives == [] || (Saves(lives[0]) && AllSave(lives[1..]))
  }

  lemma NextNotStale(s: State, e: Step)
    requires Wf(s.core) && s.disk.stale == {} && !(e.SCreateRWFinish? && e.out.SaveFailed?)
    ensures Next(s, e).disk.stale == {}
  {
    if LeavesMounts(e) {
      LeavesMountsSame(s, e);
    } else if e.SReleaseRW? && Enabled(s, e) {
      ReleaseRWMounts(s, e.pid, e.rwHandle, e.fault);
    }
  }

  lemma {:induction false} RunNotStale(s: State, steps: seq<Step>, t: State)
    requires Inv(s) && s.disk.stale == {} && Reaches(s, steps, t) && Saves(steps)
    ensures Inv(t) && t.disk.stale == {}
    decreases |steps|
  {
    if steps != [] {
      NextInv(s, steps[0]);
      NextNotStale(s, steps[0]);
      RunNotStale(Next(s, steps[0]), steps[1..], t);
    }
  }

  lemma {:induction false} LivesNotStale(s: State, lives: seq<seq<Step>>, t: State)
    requires Inv(s) && s.disk.stale == {} && Lives(s, lives, t)
    requires AllSave(lives)
    ensures t.disk.stale == {}
    decreases |lives|
  {
    if |lives| == 1 {
      RunNotStale(s, lives[0], t);
    } else if |lives| > 1 {
      var n :| Life(s, lives[0], n) && Lives(n, lives[1..], t);
      LifeNotStale(s, lives[0], n);
      LivesNotStale(n, lives[1..], t);
    }
  }

  lemma LifeNotStale(s: State, steps: seq<Step>, n: State)
    requires Inv(s) && s.disk.stale == {} && Saves(steps) && Life(s, steps, n)
    ensures Inv(n) && n.disk.stale == {}
  {
    var m :| Reaches(s, steps, m) && Restarts(m, n);
    RunNotStale(s, steps, m);
    RestartInv(m, n);
  }

  /** If no save failed in any life, a restart gives back every mount, and counts every layer for exactly
      the children and the mounts it had. */
  lemma RestartRestoresCounts(h: Digest, lives: seq<seq<Step>>, s: State, t: State, c: string)
    requires LexicalDigest(h) && Lives(Init(h), lives, s) && Restarts(s, t)
    requires AllSave(lives)
    ensures c in t.core.layerMap <==> c in s.core.layerMap
    ensures c in t.core.layerMap ==>
      && t.core.layerMap[c] in t.core.refCount
      && t.core.refCount[t.core.layerMap[c]] == |ChildrenOf(s.core.objs, s.core.layerMap, s.core.layerMap[c])|
                                              + |MountsOn(s.core.mounts, s.core.layerMap[c])|
    ensures forall name: string :: TwinMount(s.core, t.core, name)
  {
    LivesInv(h, lives, s);
    FullShadowed(s, (x: string) => true);
    InitInv(h);
    LivesNotStale(Init(h), lives, s);
    RebuiltKeys(s, t.core);
    if c in s.core.layerMap {
      RestartCounts(s, t.core, c);
    }
    forall name: string ensures TwinMount(s.core, t.core, name) {
      RebuiltMount(s, t.core, name);
    }
  }

  // ----- There is always a restart -----

  /** The layers in the map, apart from everything that does not outlive the daemon. */
  ghost function LiveLayers(k: Core): map<Obj, RoLayer> {
    map o | o in k.objs && InMap(k.objs, k.layerMap, o) :: k.objs[o]
  }

  ghost function MountOf(layerMap: map<string, Obj>, mm: MountMeta): Mount
    requires mm.parent != "" ==> mm.parent in layerMap
  {
    Mount(0, mm.mountID, mm.initID, if mm.parent == "" then None else Some(layerMap[mm.parent]))
  }

  /** The mounts that can be loaded. */
  ghost function LiveMounts(layerMap: map<string, Obj>, meta: map<string, LayerMeta>, mountMeta: map<string, MountMeta>,
                            rank: map<string, nat>): map<string, Mount>
    requires Ranked(meta, rank) && forall c :: c in meta ==> c in layerMap
  {
    map n | n in mountMeta && MountLoadable(meta, rank, mountMeta[n]) :: MountOf(layerMap, mountMeta[n])
  }

  lemma LiveMountsReloaded(layerMap: map<string, Obj>, meta: map<string, LayerMeta>, mountMeta: map<string, MountMeta>,
                           rank: map<string, nat>)
    requires Ranked(meta, rank) && forall c :: c in meta ==> c in layerMap
    ensures var mounts := LiveMounts(layerMap, meta, mountMeta, rank);
      && MountsReloaded(layerMap, mounts, meta, mountMeta, rank, mountMeta.Keys)
      && forall n :: n in mounts && mounts[n].parent.Some? ==>
           exists c :: c in layerMap && mounts[n].parent.value == layerMap[c]
  {
    var mounts := LiveMounts(layerMap, meta, mountMeta, rank);
    forall n | n in mounts && mounts[n].parent.Some?
      ensures exists c :: c in layerMap && mounts[n].parent.value == layerMap[c]
    {
      assert mountMeta[n].parent in layerMap;
    }
  }

  /** A store of given layers and mounts, with nothing in flight, counted for children and mounts. */
  ghost function Counting(objs: map<Obj, RoLayer>, nextObj: nat, layerMap: map<string, Obj>, mounts: map<string, Mount>)
    : Core
  {
    Core(objs, nextObj, layerMap,
         map o | o in objs :: |ChildrenOf(objs, layerMap, o)| + |MountsOn(mounts, o)|, {}, 0, mounts, map[])
  }

  ghost predicate Layered(objs: map<Obj, RoLayer>, nextObj: nat, layerMap: map<string, Obj>) {
    && Acyclic(objs) && Keyed(objs, layerMap) && ParentsIn(objs, layerMap)
    && forall o :: o in objs ==> InMap(objs, layerMap, o) && o < nextObj
  }

  lemma CountingSound(objs: map<Obj, RoLayer>, nextObj: nat, layerMap: map<string, Obj>, mounts: map<string, Mount>)
    requires Layered(objs, nextObj, layerMap) && MountsIn(objs, layerMap, mounts)
    ensures Sound(Counting(objs, nextObj, layerMap, mounts))
  {
    forall n | n in mounts ensures ValidParent(objs, mounts[n].parent) {
      assert ParentIn(objs, layerMap, mounts[n].parent);
    }
  }

  lemma CountingCounted(objs: map<Obj, RoLayer>, nextObj: nat, layerMap: map<string, Obj>, mounts: map<string, Mount>,
                        o: Obj)
    requires o in objs
    ensures var k := Counting(objs, nextObj, layerMap, mounts); k.refCount[o] == References(k, o)
  {
    assert HandlesOn({}, o) == {} && HoldsOn(map[], o) == {};
  }

  lemma CountingGood(objs: map<Obj, RoLayer>, nextObj: nat, layerMap: map<string, Obj>, mounts: map<string, Mount>)
    requires Layered(objs, nextObj, layerMap) && MountsIn(objs, layerMap, mounts)
    ensures Good(Counting(objs, nextObj, layerMap, mounts), None)
  {
    CountingSound(objs, nextObj, layerMap, mounts);
    var k := Counting(objs, nextObj, layerMap, mounts);
    forall o | InMap(objs, layerMap, o) ensures o in k.refCount && k.refCount[o] == References(k, o) + One(None, o) {
      CountingCounted(objs, nextObj, layerMap, mounts, o);
    }
  }

  lemma LiveLayersSound(k: Core)
    requires Sound(k)
    ensures Layered(LiveLayers(k), k.nextObj, k.layerMap)
  {
    var objs := LiveLayers(k);
    forall o {:trigger objs[o].parent} | o in objs && objs[o].parent.Some?
      ensures objs[o].parent.value in objs && objs[o].parent.value < o && InMap(objs, k.layerMap, objs[o].parent.value)
    {
      assert InMap(k.objs, k.layerMap, o) && ParentIn(k.objs, k.layerMap, k.objs[o].parent);
    }
    forall c | c in k.layerMap ensures k.layerMap[c] in objs && objs[k.layerMap[c]].chainID == c {
      assert InMap(k.objs, k.layerMap, k.layerMap[c]);
    }
  }

  lemma RebuiltFromMeta(s: State, c: string)
    requires Shadowed(s) && c in s.core.layerMap
    ensures c in s.disk.meta && FromMeta(LiveLayers(s.core), s.core.layerMap, c, s.disk.meta[c])
  {
    var k := s.core;
    var o := k.layerMap[c];
    assert Described(k.objs, o, s.disk.meta[c]);
    assert InMap(k.objs, k.layerMap, o) && ParentIn(k.objs, k.layerMap, k.objs[o].parent);
  }

  lemma MountsOfKeys(objs: map<Obj, RoLayer>, layerMap: map<string, Obj>, mounts: map<string, Mount>)
    requires Keyed(objs, layerMap)
    requires forall n :: n in mounts && mounts[n].parent.Some? ==>
      exists c :: c in layerMap && mounts[n].parent.value == layerMap[c]
    ensures MountsIn(objs, layerMap, mounts)
  {
    forall n | n in mounts ensures ParentIn(objs, layerMap, mounts[n].parent) {
      if mounts[n].parent.Some? {
        var c :| c in layerMap && mounts[n].parent.value == layerMap[c];
        assert objs[layerMap[c]].chainID == c;
      }
    }
  }

  /** The layers and mounts of a state, as they come back. */
  lemma RebuiltReloaded(s: State) returns (k: Core)
    requires Shadowed(s) && Ranked(s.disk.meta, RankOf(s.core.layerMap))
    ensures Reloaded(k, s.disk.meta, s.disk.mountMeta, RankOf(s.core.layerMap))
  {
    var objs, layerMap, rank := LiveLayers(s.core), s.core.layerMap, RankOf(s.core.layerMap);
    LiveLayersSound(s.core);
    LiveMountsReloaded(layerMap, s.disk.meta, s.disk.mountMeta, rank);
    var mounts := LiveMounts(layerMap, s.disk.meta, s.disk.mountMeta, rank);
    MountsOfKeys(objs, layerMap, mounts);
    CountingGood(objs, s.core.nextObj, layerMap, mounts);
    k := Counting(objs, s.core.nextObj, layerMap, mounts);
    forall c | c in layerMap
      ensures c in s.disk.meta && FromMeta(objs, layerMap, c, s.disk.meta[c]) && Loadable(s.disk.meta, rank, c)
    {
      RebuiltFromMeta(s, c);
      MirrorLoadable(s, c);
    }
  }

  /** From every state of every life the daemon can be restarted. */
  lemma RestartExists(s: State, ok: Archives) returns (t: State)
    requires FullInv(s, ok) && LexicalDigest(s.digest)
    ensures Restarts(s, t)
  {
    FullShadowed(s, ok);
    var k := RebuiltReloaded(s);
    t := State(s.digest, k, {}, map[], 0, None, s.disk, false);
  }
}
