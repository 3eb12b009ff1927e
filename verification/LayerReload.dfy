/**
 Rebuilding the layer store from its metadata, as the daemon does when it starts.
 */
module LayerReload {
  import opened LayerState
  import opened LayerSafety
  import opened LayerShadow

  /** Parent pointers in the metadata do not run in circles; `rank` witnesses it. */
  ghost predicate Ranked(meta: map<string, LayerMeta>, rank: map<string, nat>) {
    forall c {:trigger meta[c]} :: c in meta ==>
      c in rank && (meta[c].parent in meta ==> meta[c].parent in rank && rank[meta[c].parent] < rank[c])
  }

  /** The metadata of the layer and of all layers below it are there. */
  ghost predicate Loadable(meta: map<string, LayerMeta>, rank: map<string, nat>, c: string)
    requires Ranked(meta, rank)
    decreases if c in rank then rank[c] else 0
  {
    c in meta && (meta[c].parent == "" || (meta[c].parent in meta && Loadable(meta, rank, meta[c].parent)))
  }

  ghost predicate FromMeta(objs: map<Obj, RoLayer>, layerMap: map<string, Obj>, c: string, m: LayerMeta) {
    && c in layerMap && layerMap[c] in objs
    && (m.parent != "" ==> m.parent in layerMap)
    && objs[layerMap[c]] == RoLayer(c, m.diffID, if m.parent == "" then None else Some(layerMap[m.parent]), m.cacheID,
                                    m.size, m.tar)
  }

  /** A store under construction: its layers come from the metadata, parents included. */
  ghost predicate Loaded(k: Core, meta: map<string, LayerMeta>) {
    && Wf(k) && k.handles == {} && k.procs == map[]
    && (forall o :: o in k.objs ==> InMap(k.objs, k.layerMap, o))
    && (forall c :: c in k.layerMap ==> c in meta && FromMeta(k.objs, k.layerMap, c, meta[c]))
  }

  /** Layers were added, uncounted. */
  ghost predicate Grown(k: Core, m: Core) {
    && m.mounts == k.mounts
    && (forall c :: c in k.layerMap ==> c in m.layerMap && m.layerMap[c] == k.layerMap[c])
    && (forall o :: o in k.objs ==> o in m.objs && m.objs[o] == k.objs[o])
    && (forall o :: o in m.objs && o in m.refCount ==>
          m.refCount[o] == if o in k.objs && o in k.refCount then k.refCount[o] else 0)
  }

  /** `loadLayer` puts one layer into the map. */
  function AddLoaded(k: Core, l: RoLayer): Core {
    k.(objs := k.objs[k.nextObj := l], nextObj := k.nextObj + 1, layerMap := k.layerMap[l.chainID := k.nextObj],
       refCount := k.refCount[k.nextObj := 0])
  }

  lemma AddLoadedWf(k: Core, l: RoLayer)
    requires Wf(k) && ValidParent(k.objs, l.parent)
    ensures Wf(AddLoaded(k, l))
  {
  }

  lemma AddLoadedLoaded(k: Core, meta: map<string, LayerMeta>, c: string, parent: Option<Obj>)
    requires Loaded(k, meta) && c in meta && c !in k.layerMap
    requires if meta[c].parent == "" then parent == None
             else meta[c].parent in k.layerMap && parent == Some(k.layerMap[meta[c].parent])
    ensures var m := meta[c]; var l := RoLayer(c, m.diffID, parent, m.cacheID, m.size, m.tar);
            && Loaded(AddLoaded(k, l), meta) && Grown(k, AddLoaded(k, l))
            && AddLoaded(k, l).layerMap == k.layerMap[c := k.nextObj]
  {
    var l := RoLayer(c, meta[c].diffID, parent, meta[c].cacheID, meta[c].size, meta[c].tar);
    var n := AddLoaded(k, l);
    AddLoadedWf(k, l);
    forall x | x in n.layerMap ensures x in meta && FromMeta(n.objs, n.layerMap, x, meta[x]) {
      if x != c {
        assert FromMeta(k.objs, k.layerMap, x, meta[x]);
      }
    }
  }

  lemma {:induction false} LoadedAreLoadable(k: Core, meta: map<string, LayerMeta>, rank: map<string, nat>, c: string)
    requires Loaded(k, meta) && Ranked(meta, rank) && c in k.layerMap
    ensures Loadable(meta, rank, c)
    decreases if c in rank then rank[c] else 0
  {
    assert FromMeta(k.objs, k.layerMap, c, meta[c]);
    if meta[c].parent != "" {
      LoadedAreLoadable(k, meta, rank, meta[c].parent);
    }
  }

  lemma GrownTransitive(a: Core, b: Core, c: Core)
    requires Grown(a, b) && Grown(b, c) && Wf(a) && Wf(b) && Wf(c)
    ensures Grown(a, c)
  {
  }

  // ----- Counting children while the list of layers is worked off -----

  ghost function ListedChildren(objs: map<Obj, RoLayer>, layerMap: map<string, Obj>, done: set<string>, o: Obj)
    : set<string>
  {
    set c | c in done && IsChild(objs, layerMap, c, o)
  }

  /** Each layer is counted once for every child among the layers worked off so far. */
  ghost predicate Tallied(k: Core, done: set<string>) {
    forall o :: o in k.objs ==> o in k.refCount && k.refCount[o] == |ListedChildren(k.objs, k.layerMap, done, o)|
  }

  ghost predicate Worked(k: Core, meta: map<string, LayerMeta>, rank: map<string, nat>, done: set<string>)
    requires Ranked(meta, rank)
  {
    && Loaded(k, meta) && Tallied(k, done)
    && forall c :: c in done && Loadable(meta, rank, c) ==> c in k.layerMap
  }

  lemma GrownTallied(k: Core, m: Core, meta: map<string, LayerMeta>, rank: map<string, nat>, done: set<string>)
    requires Ranked(meta, rank) && Worked(k, meta, rank, done) && Loaded(m, meta) && Grown(k, m)
    ensures Worked(m, meta, rank, done)
  {
    forall o | o in m.objs ensures o in m.refCount && m.refCount[o] == |ListedChildren(m.objs, m.layerMap, done, o)| {
      forall c | c in done
        ensures IsChild(m.objs, m.layerMap, c, o) <==> o in k.objs && IsChild(k.objs, k.layerMap, c, o)
      {
        if c in m.layerMap {
          LoadedAreLoadable(m, meta, rank, c);
          assert FromMeta(k.objs, k.layerMap, c, meta[c]) && ValidParent(k.objs, k.objs[k.layerMap[c]].parent);
        }
      }
      if o in k.objs {
        assert ListedChildren(m.objs, m.layerMap, done, o) == ListedChildren(k.objs, k.layerMap, done, o);
      } else {
        assert ListedChildren(m.objs, m.layerMap, done, o) == {};
      }
    }
  }

  lemma ListOne(objs: map<Obj, RoLayer>, layerMap: map<string, Obj>, done: set<string>, c: string, o: Obj)
    requires c !in done
    ensures |ListedChildren(objs, layerMap, done + {c}, o)|
         == |ListedChildren(objs, layerMap, done, o)| + if IsChild(objs, layerMap, c, o) then 1 else 0
  {
    assert ListedChildren(objs, layerMap, done + {c}, o)
        == ListedChildren(objs, layerMap, done, o) + if IsChild(objs, layerMap, c, o) then {c} else {};
  }

  /** A layer without a parent, or one that could not be loaded, is worked off. */
  lemma CountNone(k: Core, meta: map<string, LayerMeta>, rank: map<string, nat>, done: set<string>, c: string)
    requires Ranked(meta, rank) && Worked(k, meta, rank, done) && c !in done
    requires Loadable(meta, rank, c) ==> c in k.layerMap
    requires c !in k.layerMap || k.objs[k.layerMap[c]].parent.None?
    ensures Worked(k, meta, rank, done + {c})
  {
    forall o | o in k.objs ensures k.refCount[o] == |ListedChildren(k.objs, k.layerMap, done + {c}, o)| {
      ListOne(k.objs, k.layerMap, done, c, o);
    }
  }

  lemma AddRefLoaded(k: Core, meta: map<string, LayerMeta>, p: Obj)
    requires Loaded(k, meta) && p in k.objs
    ensures Loaded(AddRef(k, p), meta)
  {
  }

  /** A layer with a parent is worked off by counting it on the parent. */
  lemma CountChild(k: Core, meta: map<string, LayerMeta>, rank: map<string, nat>, done: set<string>, c: string, p: Obj)
    requires Ranked(meta, rank) && Worked(k, meta, rank, done) && c !in done
    requires c in k.layerMap && k.objs[k.layerMap[c]].parent == Some(p) && p in k.objs
    ensures Worked(AddRef(k, p), meta, rank, done + {c})
  {
    AddRefLoaded(k, meta, p);
    var n := AddRef(k, p);
    forall o | o in n.objs
      ensures o in n.refCount && n.refCount[o] == |ListedChildren(n.objs, n.layerMap, done + {c}, o)|
    {
      ListOne(k.objs, k.layerMap, done, c, o);
    }
  }

  /** When all layers have been worked off, each is counted for its children. */
  lemma AllListed(k: Core, meta: map<string, LayerMeta>, rank: map<string, nat>, done: set<string>)
    requires Ranked(meta, rank) && Worked(k, meta, rank, done) && meta.Keys <= done && k.mounts == map[]
    ensures Good(k, None)
    ensures forall c :: c in meta && Loadable(meta, rank, c) ==> c in k.layerMap
  {
    forall o | o in k.objs ensures k.refCount[o] == References(k, o) {
      assert ListedChildren(k.objs, k.layerMap, done, o) == ChildrenOf(k.objs, k.layerMap, o);
      assert HandlesOn(k.handles, o) == {} && MountsOn(k.mounts, o) == {} && HoldsOn(k.procs, o) == {};
    }
    forall o | InMap(k.objs, k.layerMap, o) ensures ParentIn(k.objs, k.layerMap, k.objs[o].parent) {
      assert ValidParent(k.objs, k.objs[o].parent);
    }
  }

  // ----- Mounts -----

  /** `loadMount` on a store whose layers are loaded: the mount is counted on its parent. */
  lemma LoadMountGood(k: Core, meta: map<string, LayerMeta>, name: string, m: Mount)
    requires Loaded(k, meta) && Good(k, None) && name !in k.mounts && ValidParent(k.objs, m.parent)
    ensures var n := AddMount(if m.parent.Some? then AddRef(k, m.parent.value) else k, name, m);
            Loaded(n, meta) && Good(n, None)
  {
    if m.parent.Some? {
      AddRefGood(k, m.parent.value);
      AddRefLoaded(k, meta, m.parent.value);
      AddMountGood(AddRef(k, m.parent.value), name, m);
    } else {
      AddMountGood(k, name, m);
    }
  }

  /** The mount is the one its metadata describe. */
  ghost predicate MountFromMeta(layerMap: map<string, Obj>, m: Mount, mm: MountMeta) {
    && m.mountID == mm.mountID && m.initID == mm.initID
    && (mm.parent != "" ==> mm.parent in layerMap)
    && m.parent == if mm.parent == "" then None else Some(layerMap[mm.parent])
  }

  ghost predicate MountLoadable(meta: map<string, LayerMeta>, rank: map<string, nat>, mm: MountMeta)
    requires Ranked(meta, rank)
  {
    mm.parent == "" || Loadable(meta, rank, mm.parent)
  }

  /** The layers after a restart from the given metadata. */
  ghost predicate LayersReloaded(k: Core, meta: map<string, LayerMeta>, rank: map<string, nat>)
    requires Ranked(meta, rank)
  {
    && Loaded(k, meta) && Good(k, None)
    && (forall c :: c in k.layerMap <==> c in meta && Loadable(meta, rank, c))
  }

  /** The mounts, once those named in `done` have been worked off. */
  ghost predicate MountsReloaded(layerMap: map<string, Obj>, mounts: map<string, Mount>, meta: map<string, LayerMeta>,
                                 mountMeta: map<string, MountMeta>, rank: map<string, nat>, done: set<string>)
    requires Ranked(meta, rank)
  {
    && (forall n :: n in mounts <==> n in done && n in mountMeta && MountLoadable(meta, rank, mountMeta[n]))
    && (forall n :: n in mounts && n in mountMeta ==> MountFromMeta(layerMap, mounts[n], mountMeta[n]))
  }

  /** The store with one more mount, counted on its parent. */
  function PutMount(k: Core, name: string, m: Mount): (n: Core)
    requires m.parent.Some? ==> m.parent.value in k.refCount
    ensures n.layerMap == k.layerMap && n.mounts == k.mounts[name := m]
  {
    AddMount(if m.parent.Some? then AddRef(k, m.parent.value) else k, name, m)
  }

  lemma PutMountLayers(k: Core, meta: map<string, LayerMeta>, rank: map<string, nat>, name: string, m: Mount)
    requires Ranked(meta, rank) && LayersReloaded(k, meta, rank) && name !in k.mounts && ValidParent(k.objs, m.parent)
    ensures LayersReloaded(PutMount(k, name, m), meta, rank)
  {
    LoadMountGood(k, meta, name, m);
  }

  lemma PutMountMounts(layerMap: map<string, Obj>, mounts: map<string, Mount>, meta: map<string, LayerMeta>,
                       mountMeta: map<string, MountMeta>, rank: map<string, nat>, done: set<string>,
                       name: string, m: Mount)
    requires Ranked(meta, rank) && MountsReloaded(layerMap, mounts, meta, mountMeta, rank, done)
    requires name in mountMeta && MountLoadable(meta, rank, mountMeta[name])
    requires MountFromMeta(layerMap, m, mountMeta[name])
    ensures MountsReloaded(layerMap, mounts[name := m], meta, mountMeta, rank, done + {name})
  {
  }

  /** What the store looks like after a restart from the given metadata. */
  ghost predicate Reloaded(k: Core, meta: map<string, LayerMeta>, mountMeta: map<string, MountMeta>, rank: map<string,
                           nat>)
    requires Ranked(meta, rank)
  {
    LayersReloaded(k, meta, rank) && MountsReloaded(k.layerMap, k.mounts, meta, mountMeta, rank, mountMeta.Keys)
  }

  // ----- Round trip -----

  /** What the round trip needs of the running store. */
  ghost predicate Shadowed(s: State) {
    Inv(s) && ShadowInv(s) && (forall o :: o in s.core.objs ==> s.core.objs[o].chainID != "")
  }

  ghost function RankOf(layerMap: map<string, Obj>): map<string, nat> {
    layerMap
  }

  /** Metadata that mirror a well-founded store are ranked by the age of the layers. */
  lemma MirrorRanked(s: State)
    requires Shadowed(s)
    ensures Ranked(s.disk.meta, RankOf(s.core.layerMap))
  {
    var k, meta := s.core, s.disk.meta;
    forall c {:trigger meta[c]} | c in meta
      ensures c in k.layerMap
      ensures (meta[c].parent in meta ==> meta[c].parent in k.layerMap && k.layerMap[meta[c].parent] < k.layerMap[c])
    {
      var o := k.layerMap[c];
      assert Described(k.objs, o, meta[c]);
      assert InMap(k.objs, k.layerMap, o) && ParentIn(k.objs, k.layerMap, k.objs[o].parent);
    }
  }

  lemma {:induction false} MirrorLoadable(s: State, c: string)
    requires Shadowed(s)
    requires Ranked(s.disk.meta, RankOf(s.core.layerMap)) && c in s.core.layerMap
    ensures Loadable(s.disk.meta, RankOf(s.core.layerMap), c)
    decreases s.core.layerMap[c]
  {
    var k, o := s.core, s.core.layerMap[c];
    assert Described(k.objs, o, s.disk.meta[c]);
    assert InMap(k.objs, k.layerMap, o) && ParentIn(k.objs, k.layerMap, k.objs[o].parent);
    if k.objs[o].parent.Some? {
      MirrorLoadable(s, k.objs[k.objs[o].parent.value].chainID);
    }
  }

  /** `k` is the store rebuilt from the metadata of `s`. */
  ghost predicate RebuiltFrom(s: State, k: Core) {
    && Shadowed(s) && Ranked(s.disk.meta, RankOf(s.core.layerMap))
    && Reloaded(k, s.disk.meta, s.disk.mountMeta, RankOf(s.core.layerMap))
  }

  lemma RebuiltKeys(s: State, k: Core)
    requires RebuiltFrom(s, k)
    ensures forall c :: c in k.layerMap <==> c in s.core.layerMap
  {
    forall c | c in s.core.layerMap ensures c in k.layerMap {
      MirrorLoadable(s, c);
    }
  }

  /** The layers of `n` are those of `k` up to object identity: same ChainID, same data, same parent. */
  ghost predicate TwinLayer(k: Core, n: Core, c: string) {
    && c in k.layerMap && c in n.layerMap && k.layerMap[c] in k.objs && n.layerMap[c] in n.objs
    && var a, b := k.objs[k.layerMap[c]], n.objs[n.layerMap[c]];
       && b.(parent := None) == a.(parent := None)
       && TwinParent(k, n, a.parent, b.parent)
  }

  ghost predicate TwinParent(k: Core, n: Core, a: Option<Obj>, b: Option<Obj>) {
    if a.None? then b.None?
    else InMap(k.objs, k.layerMap, a.value) && k.objs[a.value].chainID in n.layerMap
         && b == Some(n.layerMap[k.objs[a.value].chainID])
  }

  ghost predicate Twins(k: Core, n: Core) {
    && Acyclic(k.objs) && Acyclic(n.objs) && Keyed(n.objs, n.layerMap)
    && (forall c :: c in k.layerMap <==> c in n.layerMap)
    && (forall c :: c in k.layerMap ==> TwinLayer(k, n, c))
  }

  lemma RebuiltLayer(s: State, k: Core, c: string)
    requires RebuiltFrom(s, k) && c in s.core.layerMap
    ensures TwinLayer(s.core, k, c)
  {
    RebuiltKeys(s, k);
    var o := s.core.layerMap[c];
    assert Described(s.core.objs, o, s.disk.meta[c]);
    assert FromMeta(k.objs, k.layerMap, c, s.disk.meta[c]);
    assert InMap(s.core.objs, s.core.layerMap, o) && ParentIn(s.core.objs, s.core.layerMap, s.core.objs[o].parent);
  }

  lemma RebuiltTwins(s: State, k: Core)
    requires RebuiltFrom(s, k)
    ensures Twins(s.core, k)
  {
    RebuiltKeys(s, k);
    forall c | c in s.core.layerMap ensures TwinLayer(s.core, k, c) {
      RebuiltLayer(s, k, c);
    }
  }

  lemma {:induction false} TwinSize(k: Core, n: Core, c: string)
    requires Twins(k, n) && c in k.layerMap
    ensures k.layerMap[c] in k.objs && n.layerMap[c] in n.objs
    ensures Size(n.objs, n.layerMap[c]) == Size(k.objs, k.layerMap[c])
    decreases k.layerMap[c]
  {
    assert TwinLayer(k, n, c);
    var p := k.objs[k.layerMap[c]].parent;
    if p.Some? {
      TwinSize(k, n, k.objs[p.value].chainID);
    }
  }

  lemma TwinParents(k: Core, n: Core, a: Option<Obj>, b: Option<Obj>, c: string)
    requires Twins(k, n) && TwinParent(k, n, a, b) && c in k.layerMap && Keyed(k.objs, k.layerMap)
    ensures a == Some(k.layerMap[c]) <==> b == Some(n.layerMap[c])
  {
    if b == Some(n.layerMap[c]) {
      assert n.layerMap[c] in n.objs && n.objs[n.layerMap[c]].chainID == c;
    }
  }

  lemma TwinChildren(k: Core, n: Core, c: string)
    requires Twins(k, n) && Keyed(k.objs, k.layerMap) && c in k.layerMap
    ensures ChildrenOf(n.objs, n.layerMap, n.layerMap[c]) == ChildrenOf(k.objs, k.layerMap, k.layerMap[c])
  {
    forall x | x in k.layerMap
      ensures IsChild(n.objs, n.layerMap, x, n.layerMap[c]) <==> IsChild(k.objs, k.layerMap, x, k.layerMap[c])
    {
      assert TwinLayer(k, n, x);
      TwinParents(k, n, k.objs[k.layerMap[x]].parent, n.objs[n.layerMap[x]].parent, c);
    }
  }

  ghost predicate TwinMount(k: Core, n: Core, name: string) {
    && (name in n.mounts <==> name in k.mounts)
    && (name in n.mounts ==>
          && n.mounts[name].mountID == k.mounts[name].mountID && n.mounts[name].initID == k.mounts[name].initID
          && TwinParent(k, n, k.mounts[name].parent, n.mounts[name].parent))
  }

  lemma RebuiltMount(s: State, k: Core, name: string)
    requires RebuiltFrom(s, k) && name !in s.disk.stale
    ensures TwinMount(s.core, k, name)
  {
    assert MountMirrored(s.core.objs, s.core.mounts, s.disk.mountMeta, name);
    RebuiltKeys(s, k);
    if name in s.core.mounts {
      var p := s.core.mounts[name].parent;
      assert ParentIn(s.core.objs, s.core.layerMap, p);
      if p.Some? {
        MirrorLoadable(s, s.core.objs[p.value].chainID);
      }
      assert name in k.mounts && MountFromMeta(k.layerMap, k.mounts[name], s.disk.mountMeta[name]);
    }
  }

  lemma TwinMountsOn(k: Core, n: Core, c: string)
    requires Twins(k, n) && Keyed(k.objs, k.layerMap) && c in k.layerMap
    requires forall name: string :: TwinMount(k, n, name)
    ensures MountsOn(n.mounts, n.layerMap[c]) == MountsOn(k.mounts, k.layerMap[c])
  {
    forall name: string
      ensures name in MountsOn(n.mounts, n.layerMap[c]) <==> name in MountsOn(k.mounts, k.layerMap[c])
    {
      assert TwinMount(k, n, name);
      if name in k.mounts {
        TwinParents(k, n, k.mounts[name].parent, n.mounts[name].parent, c);
      }
    }
  }

  /** Rebuilding the store from its metadata gives back exactly the layers that were in the map, with their
      parents, identifiers and sizes, and every mount whose metadata are not stale. */
  lemma RebuiltIsTwin(s: State, k: Core)
    requires RebuiltFrom(s, k)
    ensures Good(k, None) && Twins(s.core, k)
    ensures forall c :: c in s.core.layerMap ==>
      s.core.layerMap[c] in s.core.objs && k.layerMap[c] in k.objs &&
      Size(k.objs, k.layerMap[c]) == Size(s.core.objs, s.core.layerMap[c])
    ensures forall name :: name !in s.disk.stale ==> TwinMount(s.core, k, name)
  {
    RebuiltTwins(s, k);
    forall c | c in s.core.layerMap
      ensures s.core.layerMap[c] in s.core.objs && k.layerMap[c] in k.objs
              && Size(k.objs, k.layerMap[c]) == Size(s.core.objs, s.core.layerMap[c])
    {
      TwinSize(s.core, k, c);
    }
    forall name | name !in s.disk.stale ensures TwinMount(s.core, k, name) {
      RebuiltMount(s, k, name);
    }
  }

  /** With no stale metadata, a rebuilt layer is counted for the children and mounts it had. */
  lemma RestartCounts(s: State, k: Core, c: string)
    requires RebuiltFrom(s, k) && s.disk.stale == {} && c in s.core.layerMap
    ensures c in k.layerMap && k.layerMap[c] in k.refCount
    ensures k.refCount[k.layerMap[c]] == |ChildrenOf(s.core.objs, s.core.layerMap, s.core.layerMap[c])|
                                       + |MountsOn(s.core.mounts, s.core.layerMap[c])|
  {
    RebuiltTwins(s, k);
    forall name: string ensures TwinMount(s.core, k, name) { RebuiltMount(s, k, name); }
    TwinChildren(s.core, k, c);
    TwinMountsOn(s.core, k, c);
    var o := k.layerMap[c];
    assert InMap(k.objs, k.layerMap, o);
    assert HandlesOn(k.handles, o) == {} && HoldsOn(k.procs, o) == {};
  }
}
