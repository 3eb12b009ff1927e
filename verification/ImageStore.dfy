/**
 The image store as the object it is, holding handles of a layer store.
 */
module ImageStore {
  import opened ChainIds
  import opened LayerState
  import opened LayerSafety
  import opened ImageState
  import opened ImageWorld
  import LayerStore
  import Index = ImageState
  import Whole = ImageWorld
  import Registry = LayerRegister

  /** A configuration that is under its own digest and can be read. */
  predicate Readable(h: Digest, parse: Parser, content: map<ID, string>, id: ID) {
    id in content && h(content[id]) == id && parse(content[id]).Some?
  }

  /** The layer of a readable configuration can be looked up. */
  predicate Resolves(h: Digest, parse: Parser, content: map<ID, string>, layerMap: map<string, Obj>, id: ID)
    requires Readable(h, parse, content, id)
  {
    var chain := CreateChainID(h, parse(content[id]).value.diffIDs);
    chain == "" || chain in layerMap
  }

  /** The images made from the configurations read so far: each has its layer, none has children yet. */
  ghost predicate Retrieved(h: Digest, parse: Parser, content: map<ID, string>, images: map<ID, ImageMeta>,
                            handles: set<Handle>, objs: map<Obj, RoLayer>)
  {
    && (forall id :: id in images ==>
          images[id].children == {} && ImageLinked(h, parse, content, images[id], id, handles, objs))
    && Distinct(images)
  }

  lemma RetrievedMore(h: Digest, parse: Parser, content: map<ID, string>, images: map<ID, ImageMeta>, id: ID,
                      layer: Option<Handle>,
                      handles: set<Handle>, more: set<Handle>, objs: map<Obj, RoLayer>)
    requires Retrieved(h, parse, content, images, handles, objs) && handles <= more
    requires layer.Some? ==> layer.value !in handles
    requires ImageLinked(h, parse, content, ImageMeta(layer, {}), id, more, objs)
    ensures Retrieved(h, parse, content, images[id := ImageMeta(layer, {})], more, objs)
  {
    forall x | x in images ensures ImageLinked(h, parse, content, images[x], x, more, objs) {
      assert ImageLinked(h, parse, content, images[x], x, handles, objs);
    }
  }

  /** The body of the walk of `restore` for a configuration that can be read. */
  function Retrieve(s: State, parse: Parser, content: map<ID, string>, images: map<ID, ImageMeta>, id: ID)
    : (State, map<ID, ImageMeta>, bool)
    requires Wf(s.core) && Readable(s.digest, parse, content, id)
  {
    var chain := CreateChainID(s.digest, parse(content[id]).value.diffIDs);
    if chain == "" then (s, images[id := ImageMeta(None, {})], true)
    else
      var (t, layer) := Registry.Get(s, chain);
      if layer.None? then (t, images, false) else (t, images[id := ImageMeta(layer, {})], true)
  }

  /** Handles were taken, and nothing else was done. */
  ghost predicate OnlyCounts(s: State, t: State) {
    t == s.(core := s.core.(refCount := t.core.refCount, handles := t.core.handles, nextId := t.core.nextId))
  }

  /** The images after the identifiers in `done` have been walked over, starting in state `start`. */
  ghost predicate Walked(s: State, start: State, parse: Parser, content: map<ID, string>,
                         images: map<ID, ImageMeta>, done: seq<ID>)
  {
    && Inv(s) && OnlyCounts(start, s)
    && (forall id :: id in images <==> id in done && Readable(s.digest, parse, content, id))
    && (forall id :: id in images && Readable(s.digest, parse, content, id) ==>
          Resolves(s.digest, parse, content, s.core.layerMap, id))
    && Retrieved(s.digest, parse, content, images, s.core.handles, s.core.objs)
  }

  lemma RetrieveOnlyCounts(s: State, parse: Parser, content: map<ID, string>, images: map<ID, ImageMeta>, id: ID)
    requires Wf(s.core) && Readable(s.digest, parse, content, id)
    ensures var (t, more, ok) := Retrieve(s, parse, content, images, id);
      && OnlyCounts(s, t) && s.core.handles <= t.core.handles
      && (ok <==> Resolves(s.digest, parse, content, s.core.layerMap, id))
      && more.Keys == images.Keys + (if ok then {id} else {})
  {
  }

  lemma RetrieveGood(s: State, parse: Parser, content: map<ID, string>, images: map<ID, ImageMeta>, id: ID)
    requires Sound(s.core) && Retrieved(s.digest, parse, content, images, s.core.handles, s.core.objs)
    requires Readable(s.digest, parse, content, id)
    ensures var (t, more, ok) := Retrieve(s, parse, content, images, id);
      Retrieved(s.digest, parse, content, more, t.core.handles, t.core.objs)
  {
    var chain := CreateChainID(s.digest, parse(content[id]).value.diffIDs);
    if chain == "" {
      RetrievedMore(s.digest, parse, content, images, id, None, s.core.handles, s.core.handles, s.core.objs);
    } else if chain in s.core.layerMap {
      var (t, layer) := Registry.Get(s, chain);
      assert InMap(s.core.objs, s.core.layerMap, s.core.layerMap[chain]);
      RetrievedMore(s.digest, parse, content, images, id, layer, s.core.handles, t.core.handles, s.core.objs);
    }
  }

  lemma WalkOne(s: State, start: State, parse: Parser, content: map<ID, string>,
                images: map<ID, ImageMeta>, done: seq<ID>, id: ID)
    requires Walked(s, start, parse, content, images, done)
    ensures !Readable(s.digest, parse, content, id) ==> Walked(s, start, parse, content, images, done + [id])
    ensures Readable(s.digest, parse, content, id) ==>
      var (t, more, ok) := Retrieve(s, parse, content, images, id);
      && (ok <==> Resolves(s.digest, parse, content, s.core.layerMap, id))
      && if ok then Walked(t, start, parse, content, more, done + [id]) else Inv(t) && OnlyCounts(start, t)
  {
    if Readable(s.digest, parse, content, id) {
      RetrieveGood(s, parse, content, images, id);
      RetrieveOnlyCounts(s, parse, content, images, id);
      Registry.GetInv(s, CreateChainID(s.digest, parse(content[id]).value.diffIDs));
    }
  }

  /** The whole walk is over: there is an image for exactly the configurations that can be read. */
  lemma WalkedAll(s: State, start: State, parse: Parser, content: map<ID, string>, images: map<ID, ImageMeta>,
                  ids: seq<ID>)
    requires Walked(s, start, parse, content, images, ids) && forall id :: id in content <==> id in ids
    ensures images.Keys == set id | id in content && Readable(s.digest, parse, content, id)
    ensures forall id :: Readable(s.digest, parse, content, id) ==>
      Resolves(s.digest, parse, content, s.core.layerMap, id)
    ensures forall id :: id in images ==> id in content && images[id].children == {}
  {
  }

  /** What is restored: the images of the configurations that are under their own digest and can be read. */
  lemma RestoredAre(h: Digest, parse: Parser, content: map<ID, string>, parents: map<ID, ID>,
                    images: map<ID, ImageMeta>)
    requires RestoredFrom(images, parents, set id | id in content && Readable(h, parse, content, id))
    ensures forall id :: id in images <==> id in content && h(content[id]) == id && parse(content[id]).Some?
  {
    forall id ensures id in images <==> id in content && h(content[id]) == id && parse(content[id]).Some? {
      assert id in images <==> id in images.Keys;
    }
  }

  class Store {
    const ls: LayerStore.Store
    const parse: Parser
    var images: map<ID, ImageMeta>
    var content: map<ID, string>
    var parents: map<ID, ID>

    ghost function View(): Images
      reads this
    {
      Images(images, content, parents)
    }

    ghost function Both(): World
      reads this, ls
    {
      World(ls.View(), View())
    }

    /** The state `NewImageStore` starts from. */
    constructor (ls: LayerStore.Store, parse: Parser, content: map<ID, string>, parents: map<ID, ID>)
      ensures this.ls == ls && this.parse == parse && View() == Images(map[], content, parents)
    {
      this.ls, this.parse := ls, parse;
      images, this.content, this.parents := map[], content, parents;
    }

    /** `restore`: an image for every configuration that can be read, whatever the order of the walk;
        it fails exactly if the layer of one of them is missing. */
    method Restore(ids: seq<ID>) returns (ok: bool)
      requires ls.Valid() && images == map[]
      requires forall id :: id in content <==> id in ids
      modifies this`images, ls`core
      ensures ls.Valid() && OnlyCounts(old(ls.View()), ls.View())
      ensures ok <==> forall id :: Readable(ls.digest, parse, content, id) ==>
                Resolves(ls.digest, parse, content, ls.core.layerMap, id)
      ensures ok ==> RestoredFrom(images, parents, set id | id in content && Readable(ls.digest, parse, content, id))
      ensures ok ==> Distinct(images) && forall id :: id in images ==>
                ImageLinked(ls.digest, parse, content, images[id], id, ls.core.handles, ls.core.objs)
    {
      ghost var start := ls.View();
      ok := RestoreImages(ids);
      if ok {
        WalkedAll(ls.View(), start, parse, content, images, ids);
        FillChildren();
      }
    }

    /** The first pass: the walk over the configurations. */
    method RestoreImages(ids: seq<ID>) returns (ok: bool)
      requires ls.Valid() && images == map[]
      modifies this`images, ls`core
      ensures ls.Valid() && OnlyCounts(old(ls.View()), ls.View())
      ensures if ok then Walked(ls.View(), old(ls.View()), parse, content, images, ids)
              else exists id :: Readable(ls.digest, parse, content, id)
                                && !Resolves(ls.digest, parse, content, ls.core.layerMap, id)
    {
      ghost var start := ls.View();
      for i := 0 to |ids|
        invariant Walked(ls.View(), start, parse, content, images, ids[..i])
      {
        WalkOne(ls.View(), start, parse, content, images, ids[..i], ids[i]);
        assert ids[..i] + [ids[i]] == ids[..i + 1];
        if Readable(ls.digest, parse, content, ids[i]) {
          ok := RestoreImage(ids[i]);
          if !ok {
            return;
          }
        }
      }
      assert ids[..|ids|] == ids;
      return true;
    }

    /** The body of the walk. */
    method RestoreImage(id: ID) returns (ok: bool)
      requires Wf(ls.core) && Readable(ls.digest, parse, content, id)
      modifies this`images, ls`core
      ensures (ls.View(), images, ok) == Retrieve(old(ls.View()), parse, content, old(images), id)
    {
      var layer: Option<Handle> := None;
      var chain := CreateChainID(ls.digest, parse(content[id]).value.diffIDs);
      if chain != "" {
        layer := ls.Get(chain);
        if layer.None? {
          return false;
        }
      }
      images := images[id := ImageMeta(layer, {})];
      return true;
    }

    /** The second pass: every image with a stored parent joins its children. */
    method FillChildren()
      requires forall id :: id in images ==> images[id].children == {} && id in content
      modifies this`images
      ensures RestoredFrom(images, parents, old(images).Keys)
      ensures forall id :: id in images ==> images[id].layer == old(images)[id].layer
    {
      var todo := images.Keys;
      while todo != {}
        invariant images.Keys == old(images).Keys && todo <= images.Keys
        invariant forall id :: id in images ==> images[id].layer == old(images)[id].layer
        invariant forall p, c {:trigger c in images[p].children} :: p in images ==>
          (c in images[p].children <==> c in images && c !in todo && c in parents && parents[c] == p)
      {
        var id :| id in todo;
        todo := todo - {id};
        var parent := Index.GetParent(Images(images, content, parents), id);
        if parent.Some? && parent.value in images {
          var m := images[parent.value];
          images := images[parent.value := m.(children := m.children + {id})];
        }
      }
    }

    /** `Create` an image from its configuration. */
    method Create(config: string, writeOk: bool) returns (r: CreateResult)
      requires Wf(ls.core)
      modifies this`images, this`content, ls`core
      ensures (Both(), r) == Whole.Create(old(Both()), parse, config, writeOk)
      ensures old(WorldInv(Both(), parse)) && Injective(ls.digest) ==> WorldInv(Both(), parse)
    {
      if WorldInv(Both(), parse) && Injective(ls.digest) {
        CreateInv(Both(), parse, config, writeOk);
      }
      var img := parse(config);
      if img.None? {
        return Rejected;
      }
      var layerCounter := 0;
      for i := 0 to |img.value.history|
        invariant layerCounter == NonEmptyLayers(img.value.history[..i])
      {
        assert img.value.history[..i + 1][..i] == img.value.history[..i];
        if !img.value.history[i].emptyLayer {
          layerCounter := layerCounter + 1;
        }
      }
      assert img.value.history[..|img.value.history|] == img.value.history;
      if layerCounter > |img.value.diffIDs| {
        return Rejected;
      }
      if config == "" || !writeOk {
        return NotCreated;
      }
      var id := ls.digest(config);
      content := content[id := config];
      if id in images {
        return Created(id);
      }
      var chain := CreateChainID(ls.digest, img.value.diffIDs);
      var layer: Option<Handle> := None;
      if chain != "" {
        layer := ls.Get(chain);
        if layer.None? {
          return NotCreated;
        }
      }
      images := images[id := ImageMeta(layer, {})];
      return Created(id);
    }

    /** The parent metadata of the children of a deleted image are removed. */
    method ForgetParents(children: set<ID>)
      modifies this`parents
      ensures parents == old(parents) - children
    {
      var todo := children;
      while todo != {}
        invariant todo <= children && parents == old(parents) - (children - todo)
      {
        var c :| c in todo;
        todo := todo - {c};
        parents := parents - {c};
      }
      assert children - todo == children;
    }

    /** `Delete` an image and release its layer. */
    method Delete(id: ID, io: Faults) returns (r: DeleteResult)
      requires Wf(ls.core) && HandlesValid(ls.core.objs, images)
      modifies this`images, this`content, this`parents, ls`core, ls`disk, ls`panicked
      ensures (Both(), r) == Whole.Delete(old(Both()), id, io)
      ensures old(Held(Both())) ==> Held(Both())
    {
      if Held(Both()) {
        DeleteHeld(Both(), id, io);
      }
      if id !in images {
        return Unrecognized;
      }
      var m := images[id];
      ForgetParents(m.children);
      var parent := Index.GetParent(Images(images, content, parents), id);
      if parent.Some? && parent.value in images {
        var p := images[parent.value];
        images := images[parent.value := p.(children := p.children - {id})];
      }
      images := images - {id};
      content, parents := content - {id}, parents - {id};
      if m.layer.None? {
        return DeletedQuietly;
      }
      var out := ls.Release(m.layer.value, io);
      return DeletedWith(out);
    }

    method SetParent(id: ID, parent: ID) returns (ok: bool)
      modifies this`images, this`parents
      ensures (View(), ok) == Index.SetParent(old(View()), id, parent)
    {
      if parent !in images {
        return false;
      }
      var m := images[parent];
      images := images[parent := m.(children := m.children + {id})];
      if id !in content {
        return false;
      }
      parents := parents[id := parent];
      return true;
    }
  }
}
