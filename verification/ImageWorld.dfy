/**
 The image store on top of the layer store, with other clients of the layer store at work between its
 calls: every stored image keeps its whole chain of layers.
 */
module ImageWorld {
  import opened ChainIds
  import opened LayerState
  import opened LayerSafety
  import opened LayerRetention
  import opened LayerChains
  import opened ImageState
  import Whole = LayerRegister

  datatype World = World(layers: State, images: Images)

  // ----- Operations -----

  datatype CreateResult = Created(id: ID) | Rejected | NotCreated

  /** Whether `Create` gets as far as writing the configuration. */
  predicate Writes(parse: Parser, config: string, writeOk: bool) {
    parse(config).Some? && Accepted(parse(config).value) && config != "" && writeOk
  }

  /** The first part of `Create`, before the lock is taken. */
  function Write(w: World, config: string): World {
    w.(images := w.images.(content := w.images.content[w.layers.digest(config) := config]))
  }

  /** The second part of `Create`, under the lock. */
  function Finish(w: World, parse: Parser, config: string): (World, CreateResult)
    requires Wf(w.layers.core) && parse(config).Some?
  {
    var id := w.layers.digest(config);
    var chain := CreateChainID(w.layers.digest, parse(config).value.diffIDs);
    if id in w.images.images then (w, Created(id))
    else if chain == "" then (w.(images := AddImage(w.images, id, None)), Created(id))
    else
      var (s, handle) := Whole.Get(w.layers, chain);
      if handle.None? then (w, NotCreated) else (World(s, AddImage(w.images, id, handle)), Created(id))
  }

  /** `Create` without interruption: the configuration is written before the layer is looked up, and stays
      if that fails. */
  function Create(w: World, parse: Parser, config: string, writeOk: bool): (World, CreateResult)
    requires Wf(w.layers.core)
  {
    if parse(config).None? || !Accepted(parse(config).value) then (w, Rejected)
    else if config == "" || !writeOk then (w, NotCreated)
    else Finish(Write(w, config), parse, config)
  }

  datatype DeleteResult = Unrecognized | DeletedQuietly | DeletedWith(outcome: ReleaseOutcome)

  function Delete(w: World, id: ID, io: Faults): (World, DeleteResult)
    requires Wf(w.layers.core) && HandlesValid(w.layers.core.objs, w.images.images)
  {
    if id !in w.images.images then (w, Unrecognized)
    else
      var im := DeleteImage(w.images, id);
      var layer := w.images.images[id].layer;
      if layer.None? then (w.(images := im), DeletedQuietly)
      else
        var (s, out) := Release(w.layers, layer.value, io);
        (World(s, im), DeletedWith(out))
  }

  ghost predicate HandlesValid(objs: map<Obj, RoLayer>, images: map<ID, ImageMeta>) {
    forall id :: id in images && images[id].layer.Some? ==> images[id].layer.value.obj in objs
  }

  /** Handles are private: nobody else releases those of the image store. */
  predicate Owned(images: map<ID, ImageMeta>, h: Handle) {
    exists id :: id in images && images[id].layer == Some(h)
  }

  // ----- Runs of the layer store -----

  lemma {:induction false} RunConcat(s: State, a: seq<Step>, t: State, b: seq<Step>, u: State)
    requires Reaches(s, a, t) && Reaches(t, b, u)
    ensures Reaches(s, a + b, u)
    decreases |a|
  {
    if a == [] {
      assert a + b == b;
    } else {
      RunConcat(Next(s, a[0]), a[1..], t, b, u);
      assert (a + b)[1..] == a[1..] + b;
    }
  }

  lemma OneStep(s: State, e: Step)
    requires Wf(s.core)
    ensures Reaches(s, [e], Next(s, e))
  {
    assert [e][1..] == [];
    assert Reaches(Next(s, e), [], Next(s, e));
  }

  // ----- Every image holds on to its layer -----

  ghost predicate ImageLinked(h: Digest, parse: Parser, content: map<ID, string>, m: ImageMeta, id: ID,
                              handles: set<Handle>, objs: map<Obj, RoLayer>)
  {
    && id in content && parse(content[id]).Some?
    && var chain := CreateChainID(h, parse(content[id]).value.diffIDs);
       if chain == "" then m.layer == None
       else && m.layer.Some? && m.layer.value in handles && m.layer.value.obj in objs
            && objs[m.layer.value.obj].chainID == chain
  }

  /** What is on disk was accepted, and is filed under its digest. */
  ghost predicate ContentOk(h: Digest, parse: Parser, content: map<ID, string>) {
    forall id :: id in content ==>
      h(content[id]) == id && parse(content[id]).Some? && Accepted(parse(content[id]).value)
  }

  ghost predicate Distinct(images: map<ID, ImageMeta>) {
    forall a, b :: a in images && b in images && a != b && images[a].layer.Some? ==> images[a].layer != images[b].layer
  }

  ghost predicate Linked(h: Digest, parse: Parser, im: Images, handles: set<Handle>, objs: map<Obj, RoLayer>) {
    && ContentOk(h, parse, im.content)
    && (forall id :: id in im.images ==> ImageLinked(h, parse, im.content, im.images[id], id, handles, objs))
    && Distinct(im.images)
  }

  ghost predicate WorldInv(w: World, parse: Parser) {
    Inv(w.layers) && Linked(w.layers.digest, parse, w.images, w.layers.core.handles, w.layers.core.objs)
  }

  /** Each image that has a layer has a live handle of its own on it, whether or not its configuration is there. */
  ghost predicate Held(w: World) {
    && Inv(w.layers) && Distinct(w.images.images)
    && forall id :: id in w.images.images && w.images.images[id].layer.Some? ==>
         w.images.images[id].layer.value in w.layers.core.handles
  }

  lemma LinkedHeld(s: State, parse: Parser, im: Images, images: Images)
    requires Inv(s) && Linked(s.digest, parse, im, s.core.handles, s.core.objs) && images.images == im.images
    ensures Held(World(s, images))
  {
    forall id | id in im.images && im.images[id].layer.Some? ensures im.images[id].layer.value in s.core.handles {
      assert ImageLinked(s.digest, parse, im.content, im.images[id], id, s.core.handles, s.core.objs);
    }
  }

  lemma HeldHandles(w: World)
    requires Held(w)
    ensures HandlesValid(w.layers.core.objs, w.images.images)
  {
    forall h | h in w.layers.core.handles ensures h.obj in w.layers.core.objs {
      assert InMap(w.layers.core.objs, w.layers.core.layerMap, h.obj);
    }
  }

  /** Deleting an image gives up its own handle and no other. */
  lemma DeleteHeld(w: World, id: ID, io: Faults)
    requires Held(w) && HandlesValid(w.layers.core.objs, w.images.images)
    ensures Held(Delete(w, id, io).0)
  {
    if id in w.images.images {
      var im, layer := DeleteImage(w.images, id), w.images.images[id].layer;
      assert forall x :: x in im.images ==>
        x in w.images.images && x != id && im.images[x].layer == w.images.images[x].layer;
      if layer.Some? {
        Whole.ReleaseInv(w.layers, layer.value, io);
        ReleaseKeeps(w.layers, layer.value, io);
      }
    }
  }

  /** Handles other than `but` stay, and layers once allocated do not change. */
  ghost predicate Keeps(k: Core, m: Core, but: Option<Handle>) {
    && (forall h :: h in k.handles && Some(h) != but ==> h in m.handles)
    && (forall o :: o in k.objs ==> o in m.objs && m.objs[o] == k.objs[o])
  }

  lemma ReleasingKeeps(s: State, e: Step)
    requires Inv(s) && Enabled(s, e) && (e.SUnwind? || e.SRelease?)
    ensures Keeps(s.core, Next(s, e).core, if e.SRelease? then Some(e.handle) else None)
  {
    match e
    case SUnwind(pid, io) =>
      assert ValidParent(s.core.objs, s.core.procs[pid].Hold());
      UnwindReleaseGood(s, pid, io);
    case SRelease(h, io) =>
      if h in s.core.handles {
        var _ := ReleaseRemoves(s, h, io);
        ReleaseGood(s, h, io);
      }
  }

  lemma NextKeeps(s: State, e: Step)
    requires Inv(s)
    ensures Keeps(s.core, Next(s, e).core, if e.SRelease? then Some(e.handle) else None)
  {
    if Enabled(s, e) {
      match e
      case SUnwind(_, _) => ReleasingKeeps(s, e);
      case SRelease(_, _) => ReleasingKeeps(s, e);
      case SCommit(pid, ok) =>
        assert ValidParent(s.core.objs, s.core.procs[pid].Hold());
        CommitKeeps(s, pid, s.core.procs[pid].layer, ok);
      case _ =>
    }
  }

  lemma CommitKeeps(s: State, pid: Pid, l: RoLayer, ok: bool)
    requires Wf(s.core) && ValidParent(s.core.objs, l.parent)
    ensures Keeps(s.core, RegisterCommit(s, pid, l, ok).core, None)
  {
  }

  lemma KeepsLinked(h: Digest, parse: Parser, im: Images, k: Core, m: Core, but: Option<Handle>)
    requires Linked(h, parse, im, k.handles, k.objs) && Keeps(k, m, but)
    requires but.Some? ==> !Owned(im.images, but.value)
    ensures Linked(h, parse, im, m.handles, m.objs)
  {
    forall id | id in im.images ensures ImageLinked(h, parse, im.content, im.images[id], id, m.handles, m.objs) {
      assert ImageLinked(h, parse, im.content, im.images[id], id, k.handles, k.objs);
    }
  }

  /** A configuration filed again changes nothing, as long as no two of them share a digest. */
  lemma WriteLinked(h: Digest, parse: Parser, im: Images, config: string, handles: set<Handle>, objs: map<Obj, RoLayer>)
    requires Injective(h) && Linked(h, parse, im, handles, objs)
    requires parse(config).Some? && Accepted(parse(config).value)
    ensures Linked(h, parse, im.(content := im.content[h(config) := config]), handles, objs)
  {
    var content := im.content[h(config) := config];
    forall id | id in im.images ensures ImageLinked(h, parse, content, im.images[id], id, handles, objs) {
      assert ImageLinked(h, parse, im.content, im.images[id], id, handles, objs);
    }
  }

  lemma AddLinked(h: Digest, parse: Parser, im: Images, id: ID, layer: Option<Handle>, handles: set<Handle>,
                  objs: map<Obj, RoLayer>)
    requires Linked(h, parse, im, handles, objs) && id !in im.images
    requires ImageLinked(h, parse, im.content, ImageMeta(layer, {}), id, handles, objs)
    requires layer.Some? ==> !Owned(im.images, layer.value)
    ensures Linked(h, parse, AddImage(im, id, layer), handles, objs)
  {
    var n := AddImage(im, id, layer);
    forall x | x in n.images ensures ImageLinked(h, parse, n.content, n.images[x], x, handles, objs) {
      assert x != id ==> ImageLinked(h, parse, im.content, im.images[x], x, handles, objs);
    }
  }

  /** The layer the image store asks for is the one with the ChainID of the image, and the handle is new. */
  lemma GetLinked(s: State, chain: string, parse: Parser, im: Images)
    requires Inv(s) && chain in s.core.layerMap && Linked(s.digest, parse, im, s.core.handles, s.core.objs)
    ensures var (t, handle) := Whole.Get(s, chain);
      && handle.Some? && handle.value in t.core.handles && handle.value.obj in t.core.objs
      && t.core.objs[handle.value.obj].chainID == chain && t.digest == s.digest
      && !Owned(im.images, handle.value) && Keeps(s.core, t.core, None)
  {
    var handle := Whole.Get(s, chain).1.value;
    assert InMap(s.core.objs, s.core.layerMap, handle.obj);
    forall id | id in im.images ensures im.images[id].layer != Some(handle) {
      assert ImageLinked(s.digest, parse, im.content, im.images[id], id, s.core.handles, s.core.objs);
    }
  }

  /** The second part of `Create` links the image to its layer, whatever `content` is read from. */
  lemma FinishLinked(w: World, parse: Parser, config: string, im: Images)
    requires Inv(w.layers) && Linked(w.layers.digest, parse, im, w.layers.core.handles, w.layers.core.objs)
    requires im.images == w.images.images && parse(config).Some?
    requires var id := w.layers.digest(config); id in im.content && im.content[id] == config
    ensures var v := Finish(w, parse, config).0;
      && Inv(v.layers) && v.layers.digest == w.layers.digest
      && Linked(v.layers.digest, parse, im.(images := v.images.images), v.layers.core.handles, v.layers.core.objs)
  {
    var h, k := w.layers.digest, w.layers.core;
    var id, chain := h(config), CreateChainID(h, parse(config).value.diffIDs);
    if id !in im.images {
      if chain == "" {
        AddLinked(h, parse, im, id, None, k.handles, k.objs);
      } else if chain in k.layerMap {
        var (t, handle) := Whole.Get(w.layers, chain);
        Whole.GetInv(w.layers, chain);
        GetLinked(w.layers, chain, parse, im);
        KeepsLinked(h, parse, im, k, t.core, None);
        AddLinked(h, parse, im, id, handle, t.core.handles, t.core.objs);
      }
    }
  }

  lemma CreateInv(w: World, parse: Parser, config: string, writeOk: bool)
    requires WorldInv(w, parse) && Injective(w.layers.digest)
    ensures WorldInv(Create(w, parse, config, writeOk).0, parse)
  {
    if Writes(parse, config, writeOk) {
      WriteLinked(w.layers.digest, parse, w.images, config, w.layers.core.handles, w.layers.core.objs);
      FinishLinked(Write(w, config), parse, config, Write(w, config).images);
    }
  }

  /** Taking images away, or changing their children, does no harm. */
  lemma FewerLinked(h: Digest, parse: Parser, im: Images, images: map<ID, ImageMeta>, handles: set<Handle>,
                    objs: map<Obj, RoLayer>)
    requires Linked(h, parse, im, handles, objs)
    requires forall x :: x in images ==> x in im.images && images[x].layer == im.images[x].layer
    ensures Linked(h, parse, im.(images := images), handles, objs)
  {
    forall x | x in images ensures ImageLinked(h, parse, im.content, images[x], x, handles, objs) {
      assert ImageLinked(h, parse, im.content, im.images[x], x, handles, objs);
    }
  }

  lemma ReleaseKeeps(s: State, h: Handle, io: Faults)
    requires Inv(s) && h.obj in s.core.objs
    ensures Keeps(s.core, Release(s, h, io).0.core, Some(h)) && Release(s, h, io).0.digest == s.digest
  {
    ReleasingKeeps(s, SRelease(h, io));
  }

  // ----- No live image loses a layer -----

  /** ChainIDs of layers that something refers to. */
  ghost function Retained(k: Core): set<string> {
    set c | c in k.layerMap && References(k, k.layerMap[c]) > 0
  }

  lemma RetainedBelow(h: Digest, ok: Archives, k: Core, below: string, d: string)
    requires LexicalDigest(h) && Injective(h) && Sound(k) && Addressed(h, ok, k.objs, k.procs)
    requires below != "" && !ok(Link(below, d)) && h(Link(below, d)) in k.layerMap
    ensures below in Retained(k)
  {
    LayerBelow(h, ok, k, below, d);
    ChildRetains(k, h(Link(below, d)), below);
  }

  lemma ChildRetains(k: Core, c: string, below: string)
    requires below in k.layerMap && IsChild(k.objs, k.layerMap, c, k.layerMap[below])
    ensures below in Retained(k)
  {
    assert c in ChildrenOf(k.objs, k.layerMap, k.layerMap[below]);
  }

  /** Where no archive is the text of a link of the list, the layers that something refers to go down with it. */
  lemma RetainedStepsDown(h: Digest, ok: Archives, k: Core, ds: seq<string>)
    requires LexicalDigest(h) && Injective(h) && Sound(k) && Addressed(h, ok, k.objs, k.procs)
    requires Unlinked(h, ok, ds)
    ensures StepsDown(h, Retained(k), ds)
  {
    forall i | 1 <= i < |ds| ensures StepDown(h, Retained(k), ds, i) {
      RetainedStepDown(h, ok, k, ds, i);
    }
  }

  lemma RetainedStepDown(h: Digest, ok: Archives, k: Core, ds: seq<string>, i: nat)
    requires LexicalDigest(h) && Injective(h) && Sound(k) && Addressed(h, ok, k.objs, k.procs)
    requires 1 <= i < |ds| && !ok(Link(CreateChainID(h, ds[..i]), ds[i]))
    ensures StepDown(h, Retained(k), ds, i)
  {
    var below, above := ds[..i], ds[..i + 1];
    assert above == below + [ds[i]];
    if CreateChainID(h, below) != "" && CreateChainID(h, above) in Retained(k) {
      RetainedStep(h, ok, k, below, ds[i]);
    }
  }

  lemma RetainedStep(h: Digest, ok: Archives, k: Core, below: seq<string>, d: string)
    requires LexicalDigest(h) && Injective(h) && Sound(k) && Addressed(h, ok, k.objs, k.procs)
    requires CreateChainID(h, below) != "" && !ok(Link(CreateChainID(h, below), d))
    requires CreateChainID(h, below + [d]) in Retained(k)
    ensures CreateChainID(h, below) in Retained(k)
  {
    FoldLast(h, below, d);
    RetainedBelow(h, ok, k, CreateChainID(h, below), d);
  }

  /** Every prefix of the list resolves, to a layer that something refers to. */
  ghost predicate PrefixesRetained(h: Digest, k: Core, ds: seq<string>) {
    forall n :: 1 <= n <= |ds| ==> CreateChainID(h, ds[..n]) in Retained(k)
  }

  lemma ChainOfOne(h: Digest, d: string)
    ensures CreateChainID(h, [d]) == d
  {
    assert [d][1..] == [];
    assert CreateChainIDFromParent(h, d, []) == d;
  }

  /** Every prefix of the DiffIDs of an image that holds its layer resolves exactly if the list does not start
      with an empty DiffID. */
  lemma PrefixesRetainedIff(h: Digest, parse: Parser, content: map<ID, string>, m: ImageMeta, id: ID, k: Core)
    requires LexicalDigest(h) && Sound(k) && "" !in k.layerMap
    requires ImageLinked(h, parse, content, m, id, k.handles, k.objs)
    requires StepsDown(h, Retained(k), parse(content[id]).value.diffIDs)
    ensures var ds := parse(content[id]).value.diffIDs; PrefixesRetained(h, k, ds) <==> ds == [] || ds[0] != ""
  {
    var ds := parse(content[id]).value.diffIDs;
    if ds != [] && ds[0] != "" {
      FoldNotEmpty(h, ds);
      HandleRetains(k, m.layer.value);
      forall n | 1 <= n <= |ds| ensures CreateChainID(h, ds[..n]) in Retained(k) {
        PrefixesResolve(h, Retained(k), ds, n);
      }
    } else if ds != [] {
      assert ds[..1] == [""];
      ChainOfOne(h, "");
    }
  }

  lemma HandleRetains(k: Core, x: Handle)
    requires Sound(k) && x in k.handles
    ensures x.obj in k.objs && k.objs[x.obj].chainID in Retained(k)
  {
    assert InMap(k.objs, k.layerMap, x.obj);
    assert x in HandlesOn(k.handles, x.obj);
  }

  // ----- Configurations left behind -----

  /** The configuration is written, and then the layer it needs is not there. */
  ghost predicate Strands(w: World, parse: Parser, config: string, writeOk: bool) {
    && Writes(parse, config, writeOk)
    && w.layers.digest(config) !in w.images.images
    && CreateChainID(w.layers.digest, parse(config).value.diffIDs) != ""
    && CreateChainID(w.layers.digest, parse(config).value.diffIDs) !in w.layers.core.layerMap
  }

  /** A `Create` leaves a configuration without an image behind exactly if the layer is missing after it
      was written; the next `restore` then fails on it for as long as the layer is missing. */
  lemma CreateStrandsConfig(w: World, parse: Parser, config: string, writeOk: bool)
    requires Wf(w.layers.core) && w.images.content.Keys <= w.images.images.Keys
    ensures var im := Create(w, parse, config, writeOk).0.images;
      im.content.Keys <= im.images.Keys <==> !Strands(w, parse, config, writeOk)
  {
    var im := Create(w, parse, config, writeOk).0.images;
    var id := w.layers.digest(config);
    if Strands(w, parse, config, writeOk) {
      assert id in im.content.Keys && id !in im.images.Keys;
    } else {
      forall x | x in im.content.Keys ensures x in im.images.Keys {
        assert x == id || x in w.images.content.Keys;
      }
    }
  }
}
