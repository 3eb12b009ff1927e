/**
 The two stores over the lives of the daemon: at each restart the layer store is rebuilt from its metadata,
 then the image store from its configurations on top of it.
 */
module ImageLives {
  import opened ChainIds
  import opened LayerState
  import opened LayerSafety
  import opened LayerReload
  import opened LayerChains
  import opened LayerLives
  import opened ImageState
  import opened ImageWorld
  import opened ImageStore
  import opened ImageRuns
  import opened ImageRaces
  import Registry = LayerRegister

  ghost predicate FullSite(w: Site, parse: Parser, ok: Archives) {
    SiteInv(w, parse) && FullInv(w.world.layers, ok)
  }

  // ----- Restarts -----

  /** What `restore` makes of the disk of `s` on top of the layer store `u` (the contract of
      `ImageStore.Store.Restore`). */
  ghost predicate Restored(s: Site, u: State, t: Site, parse: Parser) {
    var im, n, k := s.world.images, t.world.images, t.world.layers.core;
    && Inv(t.world.layers) && OnlyCounts(u, t.world.layers)
    && n.content == im.content && n.parents == im.parents && t.written == im.content && t.pending == map[]
    && RestoredFrom(n.images, n.parents, set id | id in n.content && Readable(u.digest, parse, n.content, id))
    && Distinct(n.images)
    && forall id :: id in n.images ==> ImageLinked(u.digest, parse, n.content, n.images[id], id, k.handles, k.objs)
  }

  ghost predicate SiteRestarts(s: Site, t: Site, parse: Parser) {
    exists u :: Restarts(s.world.layers, u) && Restored(s, u, t, parse)
  }

  lemma OnlyCountsFull(u: State, t: State, ok: Archives)
    requires FullInv(u, ok) && Inv(t) && OnlyCounts(u, t)
    ensures FullInv(t, ok) && t.digest == u.digest
  {
  }

  lemma RestoredInv(s: Site, u: State, t: Site, parse: Parser)
    requires SiteInv(s, parse) && u.digest == s.world.layers.digest && Restored(s, u, t, parse)
    ensures SiteInv(t, parse)
  {
    assert ContentOk(u.digest, parse, s.world.images.content);
  }

  lemma RestartSite(s: Site, t: Site, parse: Parser, ok: Archives)
    requires FullSite(s, parse, ok) && LexicalDigest(s.world.layers.digest) && SiteRestarts(s, t, parse)
    ensures FullSite(t, parse, ok) && t.world.layers.digest == s.world.layers.digest
  {
    var u :| Restarts(s.world.layers, u) && Restored(s, u, t, parse);
    RestartFull(s.world.layers, u, ok);
    OnlyCountsFull(u, t.world.layers, ok);
    RestoredInv(s, u, t, parse);
  }

  // ----- Lives -----

  /** Only archives of the given kind are registered. */
  ghost predicate SiteRegisters(ok: Archives, steps: seq<SiteStep>) {
    forall e :: e in steps && e.LayerStep? && e.e.SRegister? ==> ok(e.e.tar)
  }

  ghost predicate AllSitesRegister(ok: Archives, lives: seq<seq<SiteStep>>)
    decreases |lives|
  {
    lives == [] || (SiteRegisters(ok, lives[0]) && AllSitesRegister(ok, lives[1..]))
  }

  ghost predicate SiteLife(s: Site, parse: Parser, steps: seq<SiteStep>, n: Site) {
    exists m :: SiteReaches(s, parse, steps, m) && SiteRestarts(m, n, parse)
  }

  /** One run after the other, with a restart in between. */
  ghost predicate SiteLives(s: Site, parse: Parser, lives: seq<seq<SiteStep>>, t: Site)
    decreases |lives|
  {
    if lives == [] then s == t
    else if |lives| == 1 then SiteReaches(s, parse, lives[0], t)
    else exists n :: SiteLife(s, parse, lives[0], n) && SiteLives(n, parse, lives[1..], t)
  }

  lemma SiteRunFull(s: Site, parse: Parser, ok: Archives, steps: seq<SiteStep>, t: Site)
    requires FullSite(s, parse, ok) && LexicalDigest(s.world.layers.digest) && Injective(s.world.layers.digest)
    requires SiteReaches(s, parse, steps, t) && SiteRegisters(ok, steps)
    ensures FullSite(t, parse, ok) && t.world.layers.digest == s.world.layers.digest
  {
    RunSiteInv(s, parse, steps, t);
    var trace := LayerTrace(s, parse, steps, t);
    RunFull(s.world.layers, ok, trace, t.world.layers);
  }

  lemma SiteLifeFull(s: Site, parse: Parser, ok: Archives, steps: seq<SiteStep>, n: Site)
    requires FullSite(s, parse, ok) && LexicalDigest(s.world.layers.digest) && Injective(s.world.layers.digest)
    requires SiteLife(s, parse, steps, n) && SiteRegisters(ok, steps)
    ensures FullSite(n, parse, ok) && n.world.layers.digest == s.world.layers.digest
  {
    var m :| SiteReaches(s, parse, steps, m) && SiteRestarts(m, n, parse);
    SiteRunFull(s, parse, ok, steps, m);
    RestartSite(m, n, parse, ok);
  }

  lemma {:induction false} SiteLivesFull(s: Site, parse: Parser, ok: Archives, lives: seq<seq<SiteStep>>,
                                         t: Site)
    requires FullSite(s, parse, ok) && LexicalDigest(s.world.layers.digest) && Injective(s.world.layers.digest)
    requires SiteLives(s, parse, lives, t) && AllSitesRegister(ok, lives)
    ensures FullSite(t, parse, ok) && t.world.layers.digest == s.world.layers.digest
    decreases |lives|
  {
    if |lives| == 1 {
      SiteRunFull(s, parse, ok, lives[0], t);
    } else if |lives| > 1 {
      var n :| SiteLife(s, parse, lives[0], n) && SiteLives(n, parse, lives[1..], t);
      SiteLifeFull(s, parse, ok, lives[0], n);
      SiteLivesFull(n, parse, ok, lives[1..], t);
    }
  }

  lemma InitSiteFull(h: Digest, parse: Parser, ok: Archives)
    ensures FullSite(InitSite(h), parse, ok)
  {
    InitFull(h, ok);
  }

  // ----- No live image loses a layer -----

  /** A state of any life, whichever archives were registered. */
  lemma LivesSite(h: Digest, parse: Parser, lives: seq<seq<SiteStep>>, w: Site)
    requires LexicalDigest(h) && Injective(h) && SiteLives(InitSite(h), parse, lives, w)
    ensures FullSite(w, parse, (x: string) => true) && w.world.layers.digest == h
  {
    InitSiteFull(h, parse, (x: string) => true);
    AnySitesRegister(lives);
    SiteLivesFull(InitSite(h), parse, (x: string) => true, lives, w);
  }

  lemma {:induction false} AnySitesRegister(lives: seq<seq<SiteStep>>)
    ensures AllSitesRegister((x: string) => true, lives)
    decreases |lives|
  {
    if lives != [] {
      AnySitesRegister(lives[1..]);
    }
  }

  /** A stored image was made from a configuration that was accepted, and that is the one on disk, if any. */
  lemma ImagesWereWritten(h: Digest, parse: Parser, lives: seq<seq<SiteStep>>, w: Site, id: ID)
    requires LexicalDigest(h) && Injective(h) && SiteLives(InitSite(h), parse, lives, w)
    requires id in w.world.images.images
    ensures id in w.written && h(w.written[id]) == id
    ensures parse(w.written[id]).Some? && Accepted(parse(w.written[id]).value)
    ensures id in w.world.images.content ==> w.world.images.content[id] == w.written[id]
  {
    LivesSite(h, parse, lives, w);
    var k := w.world.layers.core;
    assert ImageLinked(h, parse, w.written, w.world.images.images[id], id, k.handles, k.objs);
  }

  /** No archive registered in any life is the text of a link between the DiffIDs of the list. */
  ghost predicate NoLinkArchived(h: Digest, ds: seq<string>, lives: seq<seq<SiteStep>>) {
    AllSitesRegister((x: string) => !TextOfLink(h, ds, x), lives)
  }

  /** The layer store under the image has, with a prefix of its DiffIDs, the one before. */
  lemma LivesStepDown(h: Digest, parse: Parser, lives: seq<seq<SiteStep>>, w: Site, ds: seq<string>)
    requires LexicalDigest(h) && Injective(h) && SiteLives(InitSite(h), parse, lives, w) && NoLinkArchived(h, ds, lives)
    ensures SiteInv(w, parse) && w.world.layers.digest == h
    ensures StepsDown(h, Retained(w.world.layers.core), ds) && "" !in w.world.layers.core.layerMap
  {
    var ok: Archives := (x: string) => !TextOfLink(h, ds, x);
    InitSiteFull(h, parse, ok);
    SiteLivesFull(InitSite(h), parse, ok, lives, w);
    NoTextNoLink(h, ok, ds);
    RetainedStepsDown(h, ok, w.world.layers.core, ds);
    NoEmptyChain(h, ok, w.world.layers.core);
  }

  lemma NoEmptyChain(h: Digest, ok: Archives, k: Core)
    requires LexicalDigest(h) && Sound(k) && Addressed(h, ok, k.objs, k.procs)
    ensures "" !in k.layerMap
  {
    if "" in k.layerMap {
      ChainNotEmpty(h, ok, k.objs, k.procs, k.layerMap[""]);
    }
  }

  /** In every life, whatever other clients do with the layer store, whatever fails and whatever falls between
      the two steps of a `Create`, a stored image keeps its layers: the ChainID of every prefix of the DiffIDs
      it was made with is in the map, with something that refers to that layer, exactly if the first DiffID is
      not empty. */
  lemma ImagesKeepLayers(h: Digest, parse: Parser, lives: seq<seq<SiteStep>>, w: Site, id: ID, ds: seq<string>)
    requires LexicalDigest(h) && Injective(h) && SiteLives(InitSite(h), parse, lives, w) && NoLinkArchived(h, ds, lives)
    requires id in w.world.images.images
    requires id in w.written && parse(w.written[id]).Some? && parse(w.written[id]).value.diffIDs == ds
    ensures PrefixesRetained(h, w.world.layers.core, ds) <==> ds == [] || ds[0] != ""
  {
    LivesStepDown(h, parse, lives, w, ds);
    var k, m := w.world.layers.core, w.world.images.images[id];
    assert ImageLinked(h, parse, w.written, m, id, k.handles, k.objs);
    PrefixesRetainedIff(h, parse, w.written, m, id, k);
  }

  /** For DiffIDs that are digests it is enough that no archive is two digests with a blank between. */
  lemma {:induction false} DigestsNeedNoMore(h: Digest, tars: seq<string>, lives: seq<seq<SiteStep>>)
    requires LexicalDigest(h) && AllSitesRegister((x: string) => !LooksLikeLink(h, x), lives)
    ensures NoLinkArchived(h, DiffIDs(h, tars), lives)
    decreases |lives|
  {
    if lives != [] {
      forall x | !LooksLikeLink(h, x) ensures !TextOfLink(h, DiffIDs(h, tars), x) {
        if TextOfLink(h, DiffIDs(h, tars), x) {
          DigestLinks(h, tars, x);
        }
      }
      DigestsNeedNoMore(h, tars, lives[1..]);
    }
  }

  lemma DigestLinks(h: Digest, tars: seq<string>, x: string)
    requires LexicalDigest(h) && TextOfLink(h, DiffIDs(h, tars), x)
    ensures LooksLikeLink(h, x)
  {
    var ds := DiffIDs(h, tars);
    var i :| 1 <= i < |ds| && x == Link(CreateChainID(h, ds[..i]), ds[i]);
    assert ds[..i] == DiffIDs(h, tars[..i]);
    var y := ChainIsDigest(h, tars[..i]);
    assert x == Link(h(y), h(tars[i]));
  }

  /** An image whose first DiffID is empty: `createChainIDFromParent` passes over it, so the layer is found and
      `Create` stores the image, but the first prefix resolves to nothing. */
  lemma EmptyDiffIDIsStored(h: Digest, tar: string, parse: Parser, config: string, history: seq<HistoryEntry>)
    requires LexicalDigest(h) && config != "" && NonEmptyLayers(history) <= 2
    requires parse(config) == Some(Image(["", h(tar)], history))
    ensures Inv(Registry.First(h, tar))
    ensures var (v, r) := Create(World(Registry.First(h, tar), NoImages), parse, config, true);
      && r == Created(h(config)) && h(config) in v.images.images
      && CreateChainID(h, ["", h(tar)][..1]) !in v.layers.core.layerMap
  {
    Registry.FirstIsThere(h, tar);
    var d := h(tar);
    assert [""] + [d] == ["", d] && ["", d][..1] == [""];
    ChainOfOne(h, "");
    FoldLast(h, [""], d);
  }

  // ----- What comes back -----

  lemma DiskReadable(w: Site, parse: Parser, id: ID)
    requires SiteInv(w, parse) && id in w.world.images.content
    ensures Readable(w.world.layers.digest, parse, w.world.images.content, id)
  {
    assert w.written[id] == w.world.images.content[id];
  }

  lemma ImageResolves(w: Site, parse: Parser, id: ID)
    requires SiteInv(w, parse) && id in w.world.images.images && id in w.world.images.content
    ensures Readable(w.world.layers.digest, parse, w.world.images.content, id)
    ensures Resolves(w.world.layers.digest, parse, w.world.images.content, w.world.layers.core.layerMap, id)
  {
    DiskReadable(w, parse, id);
    var k := w.world.layers.core;
    assert ImageLinked(w.world.layers.digest, parse, w.written, w.world.images.images[id], id, k.handles, k.objs);
    if w.world.images.images[id].layer.Some? {
      assert InMap(k.objs, k.layerMap, w.world.images.images[id].layer.value.obj);
    }
  }

  /** All configurations on disk resolve. */
  ghost predicate AllResolve(h: Digest, parse: Parser, content: map<ID, string>, layerMap: map<string, Obj>) {
    forall id :: id in content && Readable(h, parse, content, id) ==> Resolves(h, parse, content, layerMap, id)
  }

  lemma LayerKeysSurvive(s: State, u: State, ok: Archives)
    requires FullInv(s, ok) && LexicalDigest(s.digest) && Restarts(s, u)
    ensures forall c :: c in u.core.layerMap <==> c in s.core.layerMap
  {
    FullShadowed(s, ok);
    RebuiltKeys(s, u.core);
  }

  /** After any number of lives, whatever failed, whatever other clients did and whatever was interleaved: once
      the layer store is up again it has the layer of every stored image that has its configuration, so
      `restore` succeeds exactly if the layers of configurations without an image are there too. */
  lemma RestoreSucceedsIff(h: Digest, parse: Parser, lives: seq<seq<SiteStep>>, w: Site, u: State)
    requires LexicalDigest(h) && Injective(h) && SiteLives(InitSite(h), parse, lives, w)
    requires Restarts(w.world.layers, u)
    ensures var im := w.world.images;
      && (forall id :: id in im.content ==> Readable(h, parse, im.content, id))
      && (forall id :: id in im.images && id in im.content ==> Resolves(h, parse, im.content, u.core.layerMap, id))
      && (AllResolve(h, parse, im.content, u.core.layerMap) <==>
          forall id :: id in im.content && id !in im.images ==>
            Resolves(h, parse, im.content, w.world.layers.core.layerMap, id))
  {
    LivesSite(h, parse, lives, w);
    LayerKeysSurvive(w.world.layers, u, (x: string) => true);
    ResolvesIff(w, parse, u.core.layerMap);
  }

  lemma ResolvesIff(w: Site, parse: Parser, layerMap: map<string, Obj>)
    requires SiteInv(w, parse) && forall c :: c in layerMap <==> c in w.world.layers.core.layerMap
    ensures var im, h := w.world.images, w.world.layers.digest;
      && (forall id :: id in im.content ==> Readable(h, parse, im.content, id))
      && (forall id :: id in im.images && id in im.content ==> Resolves(h, parse, im.content, layerMap, id))
      && (AllResolve(h, parse, im.content, layerMap) <==>
          forall id :: id in im.content && id !in im.images ==>
            Resolves(h, parse, im.content, w.world.layers.core.layerMap, id))
  {
    var im, h := w.world.images, w.world.layers.digest;
    forall id | id in im.content ensures Readable(h, parse, im.content, id) {
      DiskReadable(w, parse, id);
    }
    forall id | id in im.images && id in im.content ensures Resolves(h, parse, im.content, layerMap, id) {
      ImageResolves(w, parse, id);
    }
  }

  /** What is restored: an image for every configuration, so the same images exactly if each image has its
      configuration and each configuration its image; and from a consistent index the same children. */
  lemma ImagesSurviveRestart(h: Digest, parse: Parser, lives: seq<seq<SiteStep>>, w: Site, v: Site)
    requires LexicalDigest(h) && Injective(h) && SiteLives(InitSite(h), parse, lives, w)
    requires SiteRestarts(w, v, parse)
    ensures v.world.images.images.Keys == w.world.images.content.Keys
    ensures v.world.images.images.Keys == w.world.images.images.Keys
       <==> w.world.images.content.Keys == w.world.images.images.Keys
    ensures Consistent(w.world.images) ==> Consistent(v.world.images)
    ensures Consistent(w.world.images) ==> forall id :: id in w.world.images.images ==>
      id in v.world.images.images && v.world.images.images[id].children == w.world.images.images[id].children
  {
    LivesSite(h, parse, lives, w);
    var u :| Restarts(w.world.layers, u) && Restored(w, u, v, parse);
    DiskRestored(w, parse, v.world.images.images);
  }

  lemma DiskRestored(w: Site, parse: Parser, images: map<ID, ImageMeta>)
    requires SiteInv(w, parse)
    requires var im, h := w.world.images, w.world.layers.digest;
      RestoredFrom(images, im.parents, set id | id in im.content && Readable(h, parse, im.content, id))
    ensures var im := w.world.images;
      && images.Keys == im.content.Keys
      && (Consistent(im) ==> Consistent(im.(images := images)))
      && (Consistent(im) ==> forall id :: id in im.images ==>
            id in images && images[id].children == im.images[id].children)
  {
    var im, h := w.world.images, w.world.layers.digest;
    forall id | id in im.content ensures Readable(h, parse, im.content, id) {
      DiskReadable(w, parse, id);
    }
    assert (set id | id in im.content && Readable(h, parse, im.content, id)) == im.content.Keys;
    if Consistent(im) {
      RestoreRebuilds(im, images);
    }
  }

  /** After a restart images hold their layers again; every stored parent is an image with the child in its index
      exactly if each of them had its configuration. */
  lemma RestartReadyIff(w: Site, v: Site, parse: Parser)
    requires SiteInv(w, parse) && Indexed(w.world.images) && SiteRestarts(w, v, parse)
    ensures Held(v.world)
    ensures Indexed(v.world.images) <==>
      forall c :: c in w.world.images.parents ==> w.world.images.parents[c] in w.world.images.content
  {
    var u :| Restarts(w.world.layers, u) && Restored(w, u, v, parse);
    RestoredInv(w, u, v, parse);
    LinkedHeld(v.world.layers, parse, Recalled(v), v.world.images);
    DiskRestored(w, parse, v.world.images.images);
    RestoredIndexedIff(w.world.images, v.world.images.images);
    assert v.world.images == w.world.images.(images := v.world.images.images);
  }

  /** A run after which a restart fails: a `Create` whose layer is missing has left its configuration behind. */
  lemma StrandedConfigFailsRestore(h: Digest, parse: Parser, config: string, d: string)
    returns (w: Site, steps: seq<SiteStep>)
    requires config != "" && d != "" && parse(config) == Some(Image([d], []))
    ensures SiteReaches(InitSite(h), parse, steps, w) && w.world.images.images == map[]
    ensures h(config) in w.world.images.content
    ensures !AllResolve(h, parse, w.world.images.content, w.world.layers.core.layerMap)
  {
    var a := InitSite(h);
    var b := NextSite(a, parse, WriteStep(0, config, true));
    ChainOfOne(h, d);
    w := NextSite(b, parse, FinishStep(0));
    assert w.world == b.world;
    StepReaches(b, parse, FinishStep(0), [], w);
    StepReaches(a, parse, WriteStep(0, config, true), [FinishStep(0)] + [], w);
    steps := [WriteStep(0, config, true)] + ([FinishStep(0)] + []);
    assert Readable(h, parse, w.world.images.content, h(config));
    assert !Resolves(h, parse, w.world.images.content, w.world.layers.core.layerMap, h(config));
  }
}
