/**
 What the calls of the layer store answer, and what they leave behind, told by what a caller knows before
 the call: the layers and handles that are there, and which calls into the driver and the metadata fail.
 */
module LayerAnswers {
  import opened ChainIds
  import opened LayerState
  import opened LayerSafety
  import opened LayerChains
  import opened LayerRegister
  import opened LayerMounts
  import opened WritableLayers

  // ----- Register -----

  lemma {:induction false} ChainLength(objs: map<Obj, RoLayer>, o: Obj)
    requires Acyclic(objs) && o in objs
    ensures |ChainDiffIDs(objs, o)| == Depth(objs, o)
    decreases o
  {
    if objs[o].parent.Some? {
      ChainLength(objs, objs[o].parent.value);
    }
  }

  /** The parent is there, and less than 125 layers deep, or there is none. */
  ghost predicate ParentFits(k: Core, parent: string)
    requires Wf(k)
  {
    parent == "" || (parent in k.layerMap && |ChainDiffIDs(k.objs, k.layerMap[parent])| < 125)
  }

  /** The address of an archive on top of a parent. */
  function Address(h: Digest, parent: string, tar: string): string {
    if parent == "" then h(tar) else h(parent + " " + h(tar))
  }

  lemma NewLayerAddress(s: State, parent: string, tar: string, cacheID: string, size: int)
    requires Inv(s) && (parent == "" || parent in s.core.layerMap)
    ensures var p := ParentOf(s.core, parent);
      && ValidParent(s.core.objs, p) && ParentChain(s.core.objs, p) == parent
      && NewLayer(s.digest, s.core.objs, p, tar, cacheID, size)
         == RoLayer(Address(s.digest, parent, tar), s.digest(tar), p, cacheID, size, tar)
  {
    if parent != "" {
      LinkOne(s.digest, parent, s.digest(tar));
    }
  }

  /** When `Register` answers what: the parent must be there and less than 125 layers deep, the driver layer must be
      made and filled, and the metadata must be committed unless the layer is there already. */
  lemma RegisterAnswers(s: State, parent: string, tar: string, prep: Prepare, commitOk: bool, removeOk: bool,
                        io: Faults)
    requires Inv(s)
    ensures var k, r := s.core, Register(s, parent, tar, prep, commitOk, removeOk, io).1;
      && (r.NoSuchParent? <==> parent != "" && parent !in k.layerMap)
      && (r.TooDeep? <==> parent != "" && parent in k.layerMap
                          && |ChainDiffIDs(k.objs, k.layerMap[parent])| >= 125)
      && (r.Registered? <==>
            && ParentFits(k, parent) && prep.Prepared?
            && (Address(s.digest, parent, tar) in k.layerMap || commitOk))
      && (r.IOFailed? <==>
            && ParentFits(k, parent)
            && (!prep.Prepared? || (Address(s.digest, parent, tar) !in k.layerMap && !commitOk)))
  {
    var k := s.core;
    if parent != "" && parent in k.layerMap {
      ChainLength(k.objs, k.layerMap[parent]);
    }
    if prep.Prepared? && (parent == "" || parent in k.layerMap) {
      NewLayerAddress(s, parent, tar, prep.cacheID, prep.size);
    }
  }

  /** `Register` of a layer that is not there: it enters the map on top of the parent, with the size and the driver
      layer it was prepared with, and its metadata say the same; the caller gets a new handle on it. */
  lemma RegisterAdds(s: State, parent: string, tar: string, prep: Prepare, commitOk: bool, removeOk: bool, io: Faults)
    requires Inv(s) && Register(s, parent, tar, prep, commitOk, removeOk, io).1.Registered?
    requires Address(s.digest, parent, tar) !in s.core.layerMap
    ensures prep.Prepared? && (parent == "" || parent in s.core.layerMap)
    ensures var k, c, d := s.core, Address(s.digest, parent, tar), s.digest(tar);
      var (t, r) := Register(s, parent, tar, prep, commitOk, removeOk, io);
      var o, p := r.handle.obj, if parent == "" then None else Some(k.layerMap[parent]);
      && o !in k.objs && r.handle !in k.handles && o in t.core.objs
      && t.core.objs == k.objs[o := RoLayer(c, d, p, prep.cacheID, prep.size, tar)]
      && t.core.layerMap == k.layerMap[c := o] && t.core.handles == k.handles + {r.handle}
      && t.disk == s.disk.(meta := s.disk.meta[c := LayerMeta(d, prep.size, prep.cacheID, parent, tar)],
                           driver := s.disk.driver + {prep.cacheID})
      && t == s.(core := t.core, disk := t.disk)
  {
    ReachesCommit(s, parent, tar, prep, commitOk, removeOk, io);
    NewLayerAddress(s, parent, tar, prep.cacheID, prep.size);
  }

  /** `Register` of a layer that is there: the caller gets a new handle on it, and of the driver layer that was made
      nothing is left unless its removal fails.  This is so whenever something refers to the parent, or there is
      none. */
  lemma RegisterFinds(s: State, parent: string, tar: string, prep: Prepare, commitOk: bool, removeOk: bool, io: Faults)
    requires Inv(s) && Register(s, parent, tar, prep, commitOk, removeOk, io).1.Registered?
    requires Address(s.digest, parent, tar) in s.core.layerMap
    requires parent in s.core.layerMap ==> s.core.refCount[s.core.layerMap[parent]] > 0
    ensures prep.Prepared?
    ensures var k, o := s.core, s.core.layerMap[Address(s.digest, parent, tar)];
      var (t, r) := Register(s, parent, tar, prep, commitOk, removeOk, io);
      && r.handle.obj == o && r.handle !in k.handles
      && t == s.(core := k.(refCount := k.refCount[o := k.refCount[o] + 1], handles := k.handles + {r.handle},
                            nextId := k.nextId + 1),
                 disk := s.disk.(driver := if removeOk then s.disk.driver - {prep.cacheID}
                                           else s.disk.driver + {prep.cacheID}))
  {
    var k, p := s.core, ParentOf(s.core, parent);
    ReachesCommit(s, parent, tar, prep, commitOk, removeOk, io);
    var d := DriverAdd(s.disk, {prep.cacheID});
    var l := RoLayer(Address(s.digest, parent, tar), s.digest(tar), p, prep.cacheID, prep.size, tar);
    CommitFinds(k, s.(core := Hold(k, p), disk := d), l, commitOk, removeOk, io);
    AddedRemoved(s.disk, prep.cacheID);
  }

  lemma AddedRemoved(d: Disk, id: string)
    ensures DriverRemove(DriverAdd(d, {id}), id) == d.(driver := d.driver - {id})
  {
    assert d.driver + {id} - {id} == d.driver - {id};
  }

  /** A `Register` that succeeds gets as far as the commit of the layer it was asked for. */
  lemma ReachesCommit(s: State, parent: string, tar: string, prep: Prepare, commitOk: bool, removeOk: bool, io: Faults)
    requires Inv(s) && Register(s, parent, tar, prep, commitOk, removeOk, io).1.Registered?
    ensures prep.Prepared? && (parent == "" || parent in s.core.layerMap)
    ensures var p := ParentOf(s.core, parent);
      && ValidParent(s.core.objs, p) && Wf(Hold(s.core, p))
      && Register(s, parent, tar, prep, commitOk, removeOk, io)
         == Commit(s.(core := Hold(s.core, p), disk := DriverAdd(s.disk, {prep.cacheID})),
                   RoLayer(Address(s.digest, parent, tar), s.digest(tar), p, prep.cacheID, prep.size, tar),
                   commitOk, removeOk, io)
  {
    NewLayerAddress(s, parent, tar, prep.cacheID, prep.size);
  }

  lemma CommitFinds(k: Core, s: State, l: RoLayer, commitOk: bool, removeOk: bool, io: Faults)
    requires Wf(k) && Wf(s.core) && ValidParent(k.objs, l.parent) && (l.parent.Some? ==> k.refCount[l.parent.value] > 0)
    requires s.core == Hold(k, l.parent) && l.chainID in k.layerMap
    ensures var (t, r) := Commit(s, l, commitOk, removeOk, io);
      var o := k.layerMap[l.chainID];
      && r == Registered(Handle(o, k.nextId))
      && t == s.(core := GetReference(AddRef(k, o), o),
                 disk := if removeOk then DriverRemove(s.disk, l.cacheID) else s.disk)
  {
    var o := k.layerMap[l.chainID];
    var clean := if removeOk then DriverRemove(s.disk, l.cacheID) else s.disk;
    HeldGivenBack(k, s.(core := GetReference(AddRef(s.core, o), o), disk := clean), l.parent, o, io);
  }

  /** The hold on the parent goes, the new handle stays. */
  lemma HeldGivenBack(k: Core, u: State, p: Option<Obj>, o: Obj, io: Faults)
    requires Wf(k) && Wf(u.core) && ValidParent(k.objs, p) && (p.Some? ==> k.refCount[p.value] > 0) && o in k.objs
    requires u.core == GetReference(AddRef(Hold(k, p), o), o)
    ensures GiveBack(u, p, io) == u.(core := GetReference(AddRef(k, o), o))
  {
    HoldStays(u, p, io);
    assert Dropped(u.core, p).refCount == AddRef(k, o).refCount;
  }

  /** In either case the handle is live, on a layer of the map with the address asked for. */
  lemma RegisteredIsThere(s: State, parent: string, tar: string, prep: Prepare, commitOk: bool, removeOk: bool,
                          io: Faults)
    requires Inv(s) && Register(s, parent, tar, prep, commitOk, removeOk, io).1.Registered?
    ensures var (t, r) := Register(s, parent, tar, prep, commitOk, removeOk, io);
      && r.handle in t.core.handles && r.handle !in s.core.handles
      && InMap(t.core.objs, t.core.layerMap, r.handle.obj)
      && t.core.objs[r.handle.obj].chainID == Address(s.digest, parent, tar)
  {
    RegisterInv(s, parent, tar, prep, commitOk, removeOk, io);
    ReachesCommit(s, parent, tar, prep, commitOk, removeOk, io);
    var p := ParentOf(s.core, parent);
    CommitGivesHandle(s.(core := Hold(s.core, p), disk := DriverAdd(s.disk, {prep.cacheID})),
                      RoLayer(Address(s.digest, parent, tar), s.digest(tar), p, prep.cacheID, prep.size, tar),
                      commitOk, removeOk, io);
  }

  lemma CommitGivesHandle(s: State, l: RoLayer, commitOk: bool, removeOk: bool, io: Faults)
    requires Wf(s.core) && Keyed(s.core.objs, s.core.layerMap) && ValidParent(s.core.objs, l.parent)
    requires Commit(s, l, commitOk, removeOk, io).1.Registered?
    ensures var (t, r) := Commit(s, l, commitOk, removeOk, io);
      && r.handle.id == s.core.nextId && r.handle in t.core.handles && r.handle.obj in t.core.objs
      && t.core.objs[r.handle.obj].chainID == l.chainID
  {
  }

  /** A layer with the address of an archive on a parent is of that archive's DiffID and on that parent, if digests do
      not collide and no archive looks like a link. */
  lemma AddressTells(h: Digest, ok: Archives, k: Core, parent: string, tar: string, o: Obj)
    requires LexicalDigest(h) && Injective(h) && Sound(k) && Addressed(h, ok, k.objs, k.procs)
    requires (forall x :: ok(x) ==> !LooksLikeLink(h, x)) && !LooksLikeLink(h, tar)
    requires parent == "" || parent in k.layerMap
    requires InMap(k.objs, k.layerMap, o) && k.objs[o].chainID == Address(h, parent, tar)
    ensures k.objs[o].diffID == h(tar) && k.objs[o].parent == ParentOf(k, parent)
  {
    assert LayerOk(h, ok, k.objs, k.objs[o]);
    var below := k.objs[o].parent;
    if below.Some? && parent != "" {
      ChainNotEmpty(h, ok, k.objs, k.procs, below.value);
      LinkInjective(k.objs[below.value].chainID, k.objs[o].diffID, parent, h(tar));
      assert ParentIn(k.objs, k.layerMap, below);
    } else if below.Some? {
      NoArchiveIsLink(h, ok, k, below.value, k.objs[o].tar, tar);
    } else if parent != "" {
      NoArchiveIsLink(h, ok, k, k.layerMap[parent], tar, k.objs[o].tar);
    }
  }

  lemma NoArchiveIsLink(h: Digest, ok: Archives, k: Core, below: Obj, x: string, tar: string)
    requires Addressed(h, ok, k.objs, k.procs) && below in k.objs && !LooksLikeLink(h, tar)
    ensures tar != Link(k.objs[below].chainID, h(x))
  {
    var z := ChainDigest(h, ok, k, below);
    assert LooksLikeLink(h, Link(h(z), h(x)));
  }

  lemma ChainDigest(h: Digest, ok: Archives, k: Core, o: Obj) returns (z: string)
    requires Addressed(h, ok, k.objs, k.procs) && o in k.objs
    ensures k.objs[o].chainID == h(z)
  {
    var l := k.objs[o];
    assert LayerOk(h, ok, k.objs, l);
    z := if l.parent.None? then l.tar else Link(k.objs[l.parent.value].chainID, l.diffID);
  }

  /** So the layer a `Register` gives a handle on is of the parent's DiffIDs and that of the archive. */
  lemma RegisteredContent(s: State, ok: Archives, parent: string, tar: string, prep: Prepare, commitOk: bool,
                          removeOk: bool, io: Faults)
    requires LexicalDigest(s.digest) && Injective(s.digest) && Inv(s) && ChainInv(s, ok)
    requires (forall x :: ok(x) ==> !LooksLikeLink(s.digest, x)) && !LooksLikeLink(s.digest, tar)
    requires Register(s, parent, tar, prep, commitOk, removeOk, io).1.Registered?
    ensures var (t, r) := Register(s, parent, tar, prep, commitOk, removeOk, io);
      var o := r.handle.obj;
      && Wf(t.core) && r.handle in t.core.handles && InMap(t.core.objs, t.core.layerMap, o)
      && (parent == "" || parent in s.core.layerMap)
      && ChainDiffIDs(t.core.objs, o)
         == (if parent == "" then [] else ChainDiffIDs(s.core.objs, s.core.layerMap[parent])) + [s.digest(tar)]
  {
    RegisteredIsThere(s, parent, tar, prep, commitOk, removeOk, io);
    RegisterInv(s, parent, tar, prep, commitOk, removeOk, io);
    RegisteredLayer(s, ok, parent, tar, prep, commitOk, removeOk, io);
    var (t, r) := Register(s, parent, tar, prep, commitOk, removeOk, io);
    OneMore(s.core.objs, t.core.objs, r.handle.obj);
  }

  /** A layer on a parent that was there before. */
  lemma OneMore(objs: map<Obj, RoLayer>, now: map<Obj, RoLayer>, o: Obj)
    requires Acyclic(objs) && Acyclic(now) && o in now && ValidParent(objs, now[o].parent)
    requires now == objs || (o !in objs && now == objs[o := now[o]])
    ensures ChainDiffIDs(now, o)
         == (if now[o].parent.None? then [] else ChainDiffIDs(objs, now[o].parent.value)) + [now[o].diffID]
  {
    if now != objs && now[o].parent.Some? {
      ChainFrame(objs, o, now[o], now[o].parent.value);
    }
  }

  lemma RegisteredLayer(s: State, ok: Archives, parent: string, tar: string, prep: Prepare, commitOk: bool,
                        removeOk: bool, io: Faults)
    requires LexicalDigest(s.digest) && Injective(s.digest) && Inv(s) && ChainInv(s, ok)
    requires (forall x :: ok(x) ==> !LooksLikeLink(s.digest, x)) && !LooksLikeLink(s.digest, tar)
    requires Register(s, parent, tar, prep, commitOk, removeOk, io).1.Registered?
    ensures parent == "" || parent in s.core.layerMap
    ensures var (t, r) := Register(s, parent, tar, prep, commitOk, removeOk, io);
      var o, now := r.handle.obj, t.core.objs;
      && o in now && now[o].diffID == s.digest(tar) && now[o].parent == ParentOf(s.core, parent)
      && (now == s.core.objs || (o !in s.core.objs && now == s.core.objs[o := now[o]]))
  {
    ReachesCommit(s, parent, tar, prep, commitOk, removeOk, io);
    if Address(s.digest, parent, tar) in s.core.layerMap {
      RegisterFindsObj(s, parent, tar, prep, commitOk, removeOk, io);
      var o := s.core.layerMap[Address(s.digest, parent, tar)];
      AddressTells(s.digest, ok, s.core, parent, tar, o);
    } else {
      RegisterAdds(s, parent, tar, prep, commitOk, removeOk, io);
    }
  }

  lemma RegisterFindsObj(s: State, parent: string, tar: string, prep: Prepare, commitOk: bool, removeOk: bool,
                         io: Faults)
    requires Inv(s) && Register(s, parent, tar, prep, commitOk, removeOk, io).1.Registered?
    requires Address(s.digest, parent, tar) in s.core.layerMap
    ensures var (t, r) := Register(s, parent, tar, prep, commitOk, removeOk, io);
      r.handle.obj == s.core.layerMap[Address(s.digest, parent, tar)] && t.core.objs == s.core.objs
  {
    ReachesCommit(s, parent, tar, prep, commitOk, removeOk, io);
    var p := ParentOf(s.core, parent);
    CommitFindsObj(s.(core := Hold(s.core, p), disk := DriverAdd(s.disk, {prep.cacheID})),
                   RoLayer(Address(s.digest, parent, tar), s.digest(tar), p, prep.cacheID, prep.size, tar),
                   commitOk, removeOk, io);
  }

  lemma CommitFindsObj(s: State, l: RoLayer, commitOk: bool, removeOk: bool, io: Faults)
    requires Wf(s.core) && ValidParent(s.core.objs, l.parent) && l.chainID in s.core.layerMap
    ensures var (t, r) := Commit(s, l, commitOk, removeOk, io);
      r == Registered(Handle(s.core.layerMap[l.chainID], s.core.nextId)) && t.core.objs == s.core.objs
  {
    var o := s.core.layerMap[l.chainID];
    var clean := if removeOk then DriverRemove(s.disk, l.cacheID) else s.disk;
    GiveBackObjs(s.(core := GetReference(AddRef(s.core, o), o), disk := clean), l.parent, io);
  }

  lemma GiveBackObjs(s: State, p: Option<Obj>, io: Faults)
    requires Wf(s.core) && ValidParent(s.core.objs, p)
    ensures GiveBack(s, p, io).core.objs == s.core.objs
  {
  }

  lemma {:induction false} ChainFrame(objs: map<Obj, RoLayer>, n: Obj, l: RoLayer, o: Obj)
    requires Acyclic(objs) && Acyclic(objs[n := l]) && n !in objs && o in objs
    ensures ChainDiffIDs(objs[n := l], o) == ChainDiffIDs(objs, o)
    decreases o
  {
    if objs[o].parent.Some? {
      ChainFrame(objs, n, l, objs[o].parent.value);
    }
  }

  // ----- Get -----

  /** `Get` finds exactly the layers in the map, and gives a new handle on the one with the ChainID. */
  lemma GetAnswers(s: State, chain: string)
    requires Inv(s)
    ensures var (t, h) := Get(s, chain);
      && (h.Some? <==> chain in s.core.layerMap)
      && (h.None? ==> t == s)
      && (h.Some? ==>
            && h.value !in s.core.handles && t.core.handles == s.core.handles + {h.value}
            && InMap(t.core.objs, t.core.layerMap, h.value.obj) && t.core.objs[h.value.obj].chainID == chain
            && t == s.(core := s.core.(refCount := t.core.refCount, handles := t.core.handles,
                                       nextId := t.core.nextId)))
  {
  }

  // ----- Release -----

  /** `Release` accepts exactly the live handles.  Of the others it knows those whose ChainID is in the map, which it
      says are not retained; for either nothing changes. */
  lemma ReleaseAnswers(s: State, h: Handle, io: Faults)
    requires Inv(s) && h.obj in s.core.objs
    ensures var (t, r) := Release(s, h, io);
      && (r.Released? <==> h in s.core.handles)
      && (r.NotRetained? <==> h !in s.core.handles && s.core.objs[h.obj].chainID in s.core.layerMap)
      && (r.Unknown? <==> s.core.objs[h.obj].chainID !in s.core.layerMap)
      && (!r.Released? ==> t == s)
  {
    if h in s.core.handles {
      assert InMap(s.core.objs, s.core.layerMap, h.obj);
    }
  }

  /** The driver layers of what left the map. */
  ghost function Gone(objs: map<Obj, RoLayer>, before: map<string, Obj>, after: map<string, Obj>): set<string>
    requires ValidMap(objs, before)
  {
    set c | c in before && c !in after :: objs[before[c]].cacheID
  }

  lemma GoneFirst(objs: map<Obj, RoLayer>, before: map<string, Obj>, c: string, after: map<string, Obj>)
    requires ValidMap(objs, before) && c in before && forall x :: x in after ==> x in before && x != c
    ensures Gone(objs, before, after) == {objs[before[c]].cacheID} + Gone(objs, before - {c}, after)
  {
    var g := Gone(objs, before - {c}, after);
    assert c in before && c !in after;
    forall x | x in Gone(objs, before, after) ensures x in {objs[before[c]].cacheID} + g {
      var y :| y in before && y !in after && x == objs[before[y]].cacheID;
      assert y != c ==> y in before - {c};
    }
    forall x | x in g ensures x in Gone(objs, before, after) {
      var y :| y in before - {c} && y !in after && x == objs[(before - {c})[y]].cacheID;
      assert y in before && (before - {c})[y] == before[y];
    }
  }

  /** The driver has lost the layers of what left the map, and the ones in `lost`. */
  ghost predicate Cleared(objs: map<Obj, RoLayer>, before: map<string, Obj>, had: set<string>,
                          after: map<string, Obj>, has: set<string>, lost: set<string>)
    requires ValidMap(objs, before)
  {
    after.Keys <= before.Keys && has == had - Gone(objs, before, after) - lost
  }

  lemma ClearedFirst(objs: map<Obj, RoLayer>, before: map<string, Obj>, had: set<string>, c: string,
                     after: map<string, Obj>, has: set<string>, lost: set<string>)
    requires ValidMap(objs, before) && c in before
    requires Cleared(objs, before - {c}, had - {objs[before[c]].cacheID}, after, has, lost)
    ensures Cleared(objs, before, had, after, has, lost)
  {
    assert after.Keys <= (before - {c}).Keys;
    GoneFirst(objs, before, c, after);
  }

  lemma ClearedNone(objs: map<Obj, RoLayer>, before: map<string, Obj>, had: set<string>, lost: set<string>)
    requires ValidMap(objs, before)
    ensures Cleared(objs, before, had, before, had - lost, lost)
  {
    assert Gone(objs, before, before) == {};
  }

  /** What a failed removal leaves behind: the layer at which it failed is still in the map, uncounted, and it has lost
      its driver layer if only the metadata could not be removed. */
  ghost predicate StuckAt(k: Core, io: Faults, x: Obj, lost: set<string>) {
    && InMap(k.objs, k.layerMap, x) && x in k.refCount && k.refCount[x] == 0
    && (x in io.driver || x in io.meta)
    && lost == if x in io.driver then {} else {k.objs[x].cacheID}
  }

  /** One turn of the loop, told by the count and the faults. */
  lemma TurnDisk(s: State, o: Obj, removed: seq<Metadata>, depth: nat, io: Faults)
    requires Wf(s.core) && o in s.core.objs && s.core.refCount[o] > 0
    requires depth > 0 ==> removed != []
    requires s.core.refCount[o] == 1 ==> HandlesOn(s.core.handles, o) == {}
    ensures var r, d, l := ReleaseTurn(s, o, removed, depth, io), s.disk.driver, s.core.objs[o];
      if s.core.refCount[o] != 1 then
        r.Stop? && !r.result.Failed? && r.s.core.layerMap == s.core.layerMap && r.s.disk.driver == d
      else if o in io.driver || o in io.meta then
        && r.Stop? && r.result.Failed? && r.s.core == DropRef(s.core, o)
        && r.s.disk.driver == if o in io.driver then d else d - {l.cacheID}
      else
        && (r.Stop? ==> !r.result.Failed?)
        && r.s.core.layerMap == s.core.layerMap - {l.chainID} && r.s.disk.driver == d - {l.cacheID}
  {
  }

  /** A release takes the driver layers of exactly the layers that leave the map, and that of the layer at which it
      fails as far as it gets. */
  lemma {:induction false} ReleaseLoopDisk(s: State, o: Obj, removed: seq<Metadata>, depth: nat, io: Faults)
    returns (x: Obj, lost: set<string>)
    requires Good(s.core, Some(o)) && InMap(s.core.objs, s.core.layerMap, o) && (depth > 0 ==> removed != [])
    ensures var (t, res) := ReleaseLoop(s, o, removed, depth, io);
      && Cleared(s.core.objs, s.core.layerMap, s.disk.driver, t.core.layerMap, t.disk.driver, lost)
      && (if res.Failed? then StuckAt(t.core, io, x, lost) else lost == {})
    decreases o
  {
    ReleaseTurnGood(s, o, removed, depth, io);
    LastReference(s.core, o);
    TurnDisk(s, o, removed, depth, io);
    var r := ReleaseTurn(s, o, removed, depth, io);
    if r.Climb? {
      var k, more := s.core, removed + [MetadataOf(s.core.objs, o)];
      x, lost := ReleaseLoopDisk(r.s, r.parent, more, depth + 1, io);
      var t := ReleaseLoop(r.s, r.parent, more, depth + 1, io).0;
      ClearedFirst(k.objs, k.layerMap, s.disk.driver, k.objs[o].chainID, t.core.layerMap, t.disk.driver, lost);
    } else {
      x, lost := o, if r.result.Failed? && o !in io.driver then {s.core.objs[o].cacheID} else {};
      LastCleared(s.core.objs, s.core.layerMap, s.disk.driver, o, r.s.core.layerMap, r.s.disk.driver, lost);
    }
  }

  /** The last turn of the loop: it removes the layer, or it leaves the map alone. */
  lemma LastCleared(objs: map<Obj, RoLayer>, m: map<string, Obj>, d: set<string>, o: Obj, after: map<string, Obj>,
                    has: set<string>, lost: set<string>)
    requires ValidMap(objs, m) && InMap(objs, m, o)
    requires || (after == m && has == d - lost)
             || (after == m - {objs[o].chainID} && has == d - {objs[o].cacheID} && lost == {})
    ensures Cleared(objs, m, d, after, has, lost)
  {
    if after == m && has == d - lost {
      ClearedNone(objs, m, d, lost);
    } else {
      ClearedNone(objs, after, has, {});
      assert has - {} == has;
      ClearedFirst(objs, m, d, objs[o].chainID, after, has, {});
    }
  }

  /** `Release` of a live handle takes the driver layers of exactly the layers that leave the map.  If it fails, one
      layer stays in the map uncounted, and that one has lost its driver layer if only its metadata could not be
      removed. */
  lemma ReleaseDisk(s: State, h: Handle, io: Faults) returns (x: Obj, lost: set<string>)
    requires Inv(s) && h in s.core.handles
    ensures h.obj in s.core.objs && Release(s, h, io).1.Released?
    ensures var (t, r) := Release(s, h, io);
      && t.disk.driver == s.disk.driver - Gone(s.core.objs, s.core.layerMap, t.core.layerMap) - lost
      && (if r.result.Failed? then StuckAt(t.core, io, x, lost) else lost == {})
      && t.disk.mountMeta == s.disk.mountMeta && t.disk.stale == s.disk.stale
  {
    assert InMap(s.core.objs, s.core.layerMap, h.obj);
    DropHandleGood(s.core, h);
    x, lost := ReleaseLoopDisk(s.(core := DropReference(s.core, h)), h.obj, [], 0, io);
  }

  // ----- Writable layers -----

  /** When `CreateRWLayer` answers what. */
  lemma CreateRWAnswers(s: State, name: string, parent: string, mountID: string, initID: string, out: CreateRW,
                        io: Faults)
    requires Wf(s.core)
    ensures var r := CreateRWLayer(s, name, parent, mountID, initID, out, io).1;
      var found := parent == "" || parent in s.core.layerMap;
      && (r.NameConflict? <==> name in s.core.mounts)
      && (r.ParentUnknown? <==> name !in s.core.mounts && !found)
      && (r.CreatedRW? <==> name !in s.core.mounts && found && out.Saved?)
      && (r.CreateRWFailed? <==> name !in s.core.mounts && found && !out.Saved?)
  {
  }

  /** A mount that is created is there under its name, on top of the parent, with its driver layers, and the caller
      gets a new handle on it that nothing has been mounted with. */
  lemma CreatedRWIsThere(s: State, name: string, parent: string, mountID: string, initID: string, io: Faults)
    requires Inv(s) && WritableInv(s) && name !in s.core.mounts && (parent == "" || parent in s.core.layerMap)
    ensures var (t, r) := CreateRWLayer(s, name, parent, mountID, initID, Saved, io);
      && r.CreatedRW? && r.handle !in s.rw && t.rwRefs == s.rwRefs + {r.handle}
      && t.rw == s.rw[r.handle := Activity(0, 0, 0, 0, 0)]
      && OnMount(t.core.mounts, r.handle) && r.handle.name == name
      && t.core.mounts[name] == Mount(r.handle.mount, mountID, initID,
                                      if parent == "" then None else Some(s.core.layerMap[parent]))
      && t.core.mounts - {name} == s.core.mounts
      && t.disk.driver == s.disk.driver + Made(mountID, initID, Saved)
      && t.disk.meta == s.disk.meta && t.core.layerMap == s.core.layerMap
  {
    var p := if parent == "" then None else Some(s.core.layerMap[parent]);
    MadeMount(s.(core := Hold(s.core, p)), name, p, mountID, initID, io);
    AddedMount(s.core.mounts, name, Mount(s.nextRW, mountID, initID, p));
  }

  lemma AddedMount(mounts: map<string, Mount>, name: string, m: Mount)
    requires name !in mounts
    ensures mounts[name := m] - {name} == mounts
  {
  }

  lemma MadeMount(s: State, name: string, p: Option<Obj>, mountID: string, initID: string, io: Faults)
    requires Wf(s.core) && ValidParent(s.core.objs, p)
    ensures var (t, r) := MakeMount(s, name, p, mountID, initID, Saved, io);
      var x, m := RWHandle(name, s.nextRW, s.nextRW + 1), Mount(s.nextRW, mountID, initID, p);
      && r == CreatedRW(x) && t.core == s.core.(mounts := s.core.mounts[name := m])
      && t.rwRefs == s.rwRefs + {x} && t.rw == s.rw[x := Activity(0, 0, 0, 0, 0)]
      && t.disk.driver == s.disk.driver + Made(mountID, initID, Saved) && t.disk.meta == s.disk.meta
  {
    CreateRWDriver(s.disk, s.core.objs, name, Mount(s.nextRW, mountID, initID, p), Saved);
  }

  /** The driver layers of a mount, as far as they were made. */
  function Made(mountID: string, initID: string, out: CreateRW): set<string> {
    (if initID != "" && (out.InitFailed? ==> out.left) then {initID} else {})
    + (if out.SaveFailed? || out.Saved? then {mountID} else {})
  }

  lemma CreateRWDriver(d: Disk, objs: map<Obj, RoLayer>, name: string, m: Mount, out: CreateRW)
    requires ValidParent(objs, m.parent)
    ensures var e := CreateRWDisk(d, objs, name, m, out);
      && e.driver == d.driver + Made(m.mountID, m.initID, out) && e.meta == d.meta
      && e.mountMeta - {name} == d.mountMeta - {name}
      && (!out.Saved? && !(out.SaveFailed? && out.written > 0) ==> e.mountMeta == d.mountMeta && e.stale == d.stale)
  {
    var e := CreateRWDisk(d, objs, name, m, out);
    assert e.driver == d.driver + Made(m.mountID, m.initID, out);
  }

  /** A mount that is not created leaves the store as it was, if something refers to the parent, but for driver layers
      and its record: it keeps the init layer if that was made, and the layer of the mount if only the record could
      not be saved. */
  lemma FailedCreateRWRestores(s: State, name: string, parent: string, mountID: string, initID: string, out: CreateRW,
                               io: Faults)
    requires Inv(s) && name !in s.core.mounts && !out.Saved?
    requires parent == "" || (parent in s.core.layerMap && s.core.refCount[s.core.layerMap[parent]] > 0)
    ensures var t := CreateRWLayer(s, name, parent, mountID, initID, out, io).0;
      && t == s.(disk := s.disk.(driver := t.disk.driver, mountMeta := t.disk.mountMeta, stale := t.disk.stale))
      && t.disk.driver == s.disk.driver + Made(mountID, initID, out)
      && t.disk.mountMeta - {name} == s.disk.mountMeta - {name}
      && (!(out.SaveFailed? && out.written > 0) ==> t.disk.mountMeta == s.disk.mountMeta)
  {
    var p := if parent == "" then None else Some(s.core.layerMap[parent]);
    var m := Mount(s.nextRW, mountID, initID, p);
    var u := s.(core := Hold(s.core, p), disk := CreateRWDisk(s.disk, s.core.objs, name, m, out));
    CreateRWDriver(s.disk, s.core.objs, name, m, out);
    HoldGivenBack(s.core, u, p, io);
  }

  lemma HoldGivenBack(k: Core, u: State, p: Option<Obj>, io: Faults)
    requires Wf(k) && Wf(u.core) && ValidParent(k.objs, p) && (p.Some? ==> k.refCount[p.value] > 0)
    requires u.core == Hold(k, p)
    ensures GiveBack(u, p, io) == u.(core := k)
  {
    HoldStays(u, p, io);
    assert Dropped(u.core, p).refCount == k.refCount;
  }

  /** When `ReleaseRWLayer` answers what: the handle must be live and balanced, and the mount goes with the last handle
      on it, if its removals succeed. */
  lemma ReleaseRWAnswers(s: State, h: RWHandle, fault: ReleaseRWFault)
    requires WritableInv(s)
    ensures h in s.rwRefs ==> h.name in s.core.mounts && h in s.rw
    ensures var r := ReleaseRWResult(s, h, fault);
      var idle := h in s.rwRefs && s.rw[h].getsOk + s.rw[h].getsFailed <= s.rw[h].putsOk + s.rw[h].putsFailed;
      var last := forall g :: g in s.rwRefs && g.name == h.name ==> g == h;
      var faulty := fault.MountRemoveFailed? || fault.MetaRemoveFailed?
                    || (fault.InitRemoveFailed? && h in s.rwRefs && s.core.mounts[h.name].initID != "");
      && (r.MountUnknown? <==> h.name !in s.core.mounts)
      && (r.RWNotRetained? <==> h.name in s.core.mounts && h !in s.rwRefs)
      && (r.ActiveMount? <==> h in s.rwRefs && !idle)
      && (r.StillReferenced? <==> idle && !last)
      && (r.RemoveFailed? <==> idle && last && faulty)
      && (r.MountRemoved? <==> idle && last && !faulty)
  {
    if h in s.rwRefs {
      assert OnMount(s.core.mounts, h) && Balanced(s.rw[h]);
      forall g | g in s.rwRefs && g.name == h.name ensures g.mount == h.mount {
        assert OnMount(s.core.mounts, g);
      }
    }
  }

  /** A handle that is given up is dead, and with the last one the mount goes: its name is free, and the driver has
      neither its layer nor its init layer any more, nor the disk its record.  The parent is given back only then. */
  lemma DropMountEffect(s: State, h: RWHandle, fault: ReleaseRWFault)
    requires WritableInv(s)
    ensures var r := ReleaseRWResult(s, h, fault);
      var (t, p) := DropMount(s, h, fault);
      && (r.MountUnknown? || r.RWNotRetained? || r.ActiveMount? ==> t == s && p == None)
      && (r.StillReferenced? || r.RemoveFailed? || r.MountRemoved? ==>
            && h.name in s.core.mounts && h in s.rw
            && t.rwRefs == s.rwRefs - {h} && t.rw == s.rw[h := s.rw[h].(count := -1)])
      && (r.StillReferenced? ==> t.core == s.core && t.disk == s.disk && p == None)
      && (r.RemoveFailed? ==>
            t.core == s.core && p == None && t.disk == s.disk.(driver := t.disk.driver))
      && (r.MountRemoved? ==>
            && t.core == s.core.(mounts := s.core.mounts - {h.name}) && p == s.core.mounts[h.name].parent
            && t.disk == s.disk.(mountMeta := s.disk.mountMeta - {h.name}, stale := s.disk.stale - {h.name},
                                 driver := t.disk.driver))
      && (r.RemoveFailed? || r.MountRemoved? ==> var m := s.core.mounts[h.name];
            t.disk.driver == s.disk.driver
              - (if fault.MountRemoveFailed? then {} else {m.mountID})
              - (if m.initID == "" || fault.MountRemoveFailed? || fault.InitRemoveFailed? then {} else {m.initID}))
  {
  }

  /** A Get or a Put on a live handle is booked as such, and as made or failed; on any other handle none is. */
  lemma ActivityEffect(s: State, h: RWHandle, ok: bool)
    requires WritableInv(s) && h in s.rw
    ensures var a, b, c := s.rw[h], MountRW(s, h, ok), UnmountRW(s, h, ok);
      && b == s.(rw := b.rw) && c == s.(rw := c.rw) && h in b.rw && h in c.rw
      && b.rw == s.rw[h := b.rw[h]] && c.rw == s.rw[h := c.rw[h]]
      && (h !in s.rwRefs ==> b == c == s)
      && (h in s.rwRefs ==>
            && Outstanding(b.rw[h]) == Outstanding(a) + (if ok then 1 else 0)
            && Excess(b.rw[h]) == Excess(a) + (if ok then 0 else 1)
            && (a.getsOk + a.getsFailed == a.putsOk + a.putsFailed ==> c == s)
            && (a.getsOk + a.getsFailed != a.putsOk + a.putsFailed ==>
                  && Outstanding(c.rw[h]) == Outstanding(a) - (if ok then 1 else 0)
                  && Excess(c.rw[h]) == Excess(a) - (if ok then 0 else 1)))
  {
    assert Balanced(s.rw[h]);
    assert s.rw[h := s.rw[h]] == s.rw;
  }
}
