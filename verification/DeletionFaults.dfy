/**
 How the removal of layers can cut a deletion short.
 */
module DeletionFaults {
  import opened ChainIds
  import opened LayerState
  import opened LayerSafety
  import opened LayerRemoval
  import opened ImageState
  import opened ImageWorld
  import opened ImageDeletion
  import Registry = LayerRegister

  /** The layers that go with an image. */
  ghost function DoomedWith(w: World, id: ID): seq<Obj> {
    var k := w.layers.core;
    if Wf(k) && id in w.images.images && w.images.images[id].layer.Some?
      && w.images.images[id].layer.value.obj in k.objs
    then Doomed(k.objs, k.refCount, w.images.images[id].layer.value.obj)
    else []
  }

  /** Removing one of the layers that go with the image fails. */
  ghost predicate LayersFail(w: World, id: ID, io: Faults) {
    Faulty(DoomedWith(w, id), io)
  }

  ghost function AfterDelete(w: World, id: ID, io: Faults): World {
    if Wf(w.layers.core) && HandlesValid(w.layers.core.objs, w.images.images) then Delete(w, id, io).0 else w
  }

  ghost function AfterAll(w: World, path: seq<ID>, io: Faults): World
    decreases |path|
  {
    if path == [] then w else AfterAll(AfterDelete(w, path[0], io), path[1..], io)
  }

  /** At the turn of one of the images, removing its layers fails. */
  ghost predicate Troubled(w: World, path: seq<ID>, io: Faults)
    decreases |path|
  {
    path != [] && (LayersFail(w, path[0], io) || Troubled(AfterDelete(w, path[0], io), path[1..], io))
  }

  /** The images up to and including the first whose layers cannot be removed. */
  ghost function UpTo(w: World, path: seq<ID>, io: Faults): seq<ID>
    decreases |path|
  {
    if path == [] then []
    else if LayersFail(w, path[0], io) then [path[0]]
    else [path[0]] + UpTo(AfterDelete(w, path[0], io), path[1..], io)
  }

  /** Deleting a stored image: it goes in any case, and the call reports a failure exactly if a layer that
      goes with it cannot be removed. */
  lemma DeleteStored(w: World, id: ID, io: Faults)
    requires Held(w) && id in w.images.images && HandlesValid(w.layers.core.objs, w.images.images)
    ensures var (v, r) := Delete(w, id, io);
      && Held(v) && v.images == DeleteImage(w.images, id) && v == AfterDelete(w, id, io)
      && (r.DeletedQuietly? || (r.DeletedWith? && r.outcome.Released? && !r.outcome.result.Panic?))
      && (r.DeletedWith? && r.outcome.Released? && r.outcome.result.Failed? <==> LayersFail(w, id, io))
  {
    DeleteHeld(w, id, io);
    if w.images.images[id].layer.Some? {
      ReleaseFailsIff(w.layers, w.images.images[id].layer.value, io);
    }
  }

  /** What a deletion carries out of what it is after: all of it, or everything up to the first image whose
      layers cannot be removed. */
  ghost predicate Carried(w: World, v: World, refs: map<Ref, ID>, containers: seq<Container>,
                          id: ID, force: bool, prune: bool, io: Faults, layerError: bool, path: seq<ID>)
  {
    var intended := Intended(w.images, refs, containers, id, force, prune);
    path == UpTo(w, intended, io) && v == AfterAll(w, path, io) && (layerError <==> Troubled(w, intended, io))
  }

  lemma CarriedNothing(w: World, refs: map<Ref, ID>, containers: seq<Container>, id: ID, force: bool, prune: bool,
                       io: Faults)
    requires id !in w.images.images || !Deletable(w.images, refs, containers, id, force)
    ensures Carried(w, w, refs, containers, id, force, prune, io, false, [])
  {
  }

  lemma CarriedOne(w: World, refs: map<Ref, ID>, containers: seq<Container>, id: ID, force: bool, prune: bool,
                   io: Faults)
    requires id in w.images.images && Deletable(w.images, refs, containers, id, force)
    requires LayersFail(w, id, io) || !prune || GetParent(w.images, id).None?
    ensures Carried(w, AfterDelete(w, id, io), refs, containers, id, force, prune, io, LayersFail(w, id, io), [id])
  {
    var intended := Intended(w.images, refs, containers, id, force, prune);
    assert [id][1..] == [];
    assert AfterAll(AfterDelete(w, id, io), [], io) == AfterDelete(w, id, io);
    if !LayersFail(w, id, io) {
      assert intended == [id] && UpTo(AfterDelete(w, id, io), [], io) == [];
    }
  }

  lemma CarriedMore(w: World, v: World, refs: map<Ref, ID>, left: map<Ref, ID>, containers: seq<Container>,
                    id: ID, force: bool, io: Faults, layerError: bool, rest: seq<ID>)
    requires id in w.images.images && Deletable(w.images, refs, containers, id, force) && !LayersFail(w, id, io)
    requires GetParent(w.images, id).Some? && OnlyUntags(refs, left, id)
    requires AfterDelete(w, id, io).images == DeleteImage(w.images, id)
    requires Carried(AfterDelete(w, id, io), v, left, containers, GetParent(w.images, id).value, false, true, io,
                     layerError, rest)
    ensures Carried(w, v, refs, containers, id, force, true, io, layerError, [id] + rest)
  {
    IntendedMore(w.images, refs, left, containers, id, force);
    var more := Intended(DeleteImage(w.images, id), left, containers, GetParent(w.images, id).value, false, true);
    UpToMore(w, id, more, io);
    assert ([id] + rest)[1..] == rest;
  }

  lemma IntendedMore(im: Images, refs: map<Ref, ID>, left: map<Ref, ID>, containers: seq<Container>, id: ID,
                     force: bool)
    requires id in im.images && Deletable(im, refs, containers, id, force) && GetParent(im, id).Some?
    requires OnlyUntags(refs, left, id)
    ensures Intended(im, refs, containers, id, force, true)
         == [id] + Intended(DeleteImage(im, id), left, containers, GetParent(im, id).value, false, true)
  {
    assert DeleteImage(im, id).images.Keys == im.images.Keys - {id};
    IntendedBefore(DeleteImage(im, id), refs, left, id, containers, GetParent(im, id).value, false, true);
  }

  lemma UpToMore(w: World, id: ID, more: seq<ID>, io: Faults)
    requires !LayersFail(w, id, io)
    ensures UpTo(w, [id] + more, io) == [id] + UpTo(AfterDelete(w, id, io), more, io)
    ensures Troubled(w, [id] + more, io) <==> Troubled(AfterDelete(w, id, io), more, io)
  {
    assert ([id] + more)[1..] == more;
  }

  // ----- A deletion that is not recorded -----

  /** One image on one layer, after the layer was registered and the image created from `config`. */
  function Shared(h: Digest, tar: string, parse: Parser, config: string): World {
    Registry.FirstIsThere(h, tar);
    Create(World(Registry.First(h, tar), NoImages), parse, config, true).0
  }

  lemma SharedIsThere(h: Digest, tar: string, parse: Parser, config: string)
    requires h(tar) != "" && config != "" && parse(config) == Some(Image([h(tar)], []))
    ensures var w := Shared(h, tar, parse, config); var k := w.layers.core;
      && Inv(w.layers) && w.images.images == map[h(config) := ImageMeta(Some(Handle(0, 1)), {})]
      && k.handles == {Handle(0, 0), Handle(0, 1)} && k.refCount == map[0 := 2]
      && k.objs == Registry.First(h, tar).core.objs && k.layerMap == map[h(tar) := 0]
  {
    Registry.FirstIsThere(h, tar);
    ChainOfOne(h, h(tar));
    Registry.GetInv(Registry.First(h, tar), h(tar));
  }

  /** The same after the handle from the registration is released: only the image holds the layer. */
  function Alone(h: Digest, tar: string, parse: Parser, config: string): World
    requires h(tar) != "" && config != "" && parse(config) == Some(Image([h(tar)], []))
  {
    SharedIsThere(h, tar, parse, config);
    Registry.FirstIsThere(h, tar);
    var w := Shared(h, tar, parse, config);
    w.(layers := Release(w.layers, Handle(0, 0), NoFaults).0)
  }

  lemma AloneIsThere(h: Digest, tar: string, parse: Parser, config: string)
    requires h(tar) != "" && config != "" && parse(config) == Some(Image([h(tar)], []))
    ensures var w := Alone(h, tar, parse, config); var k := w.layers.core;
      && Inv(w.layers) && w.images == Shared(h, tar, parse, config).images
      && k.handles == {Handle(0, 1)} && k.refCount == map[0 := 1] && 0 in k.objs && k.objs[0].parent.None?
  {
    SharedIsThere(h, tar, parse, config);
    Registry.FirstIsThere(h, tar);
    var s := Shared(h, tar, parse, config).layers;
    Registry.ReleaseInv(s, Handle(0, 0), NoFaults);
    var t := s.(core := DropReference(s.core, Handle(0, 0)));
    assert t.core.handles == {Handle(0, 1)};
    assert ReleaseTurn(t, 0, [], 0, NoFaults) == Stop(t.(core := DropRef(t.core, 0)), Removed([]));
  }

  /** A run after which a deletion goes unrecorded: the driver fails to remove the layer of the only image
      on it, the image is gone, and the call reports an error instead of the deletion. */
  lemma DeletionGoesUnrecorded(h: Digest, tar: string, parse: Parser, config: string)
    requires h(tar) != "" && config != "" && parse(config) == Some(Image([h(tar)], []))
    ensures var w, io := Alone(h, tar, parse, config), Faults({0}, {});
      && Wf(w.layers.core) && HandlesValid(w.layers.core.objs, w.images.images) && h(config) in w.images.images
      && Intended(w.images, map[], [], h(config), false, false) == [h(config)]
      && Troubled(w, [h(config)], io)
      && h(config) !in Delete(w, h(config), io).0.images.images
      && Delete(w, h(config), io).1 == DeletedWith(Released(Failed))
  {
    SharedIsThere(h, tar, parse, config);
    AloneIsThere(h, tar, parse, config);
    var w := Alone(h, tar, parse, config);
    IntendedAlone(w.images, h(config));
    SoleIsDoomed(w, h(config));
    SoleLayerFails(w, h(config));
  }

  lemma IntendedAlone(im: Images, id: ID)
    requires id in im.images && im.images[id].children == {}
    ensures Intended(im, map[], [], id, false, false) == [id]
  {
    assert RefsTo(map[], id) == {};
  }

  /** A world whose only image holds the only reference to its layer. */
  ghost predicate Sole(w: World, id: ID) {
    var k := w.layers.core;
    && Inv(w.layers) && w.images.images == map[id := ImageMeta(Some(Handle(0, 1)), {})]
    && Handle(0, 1) in k.handles && k.refCount == map[0 := 1] && 0 in k.objs && k.objs[0].parent.None?
  }

  lemma SoleIsDoomed(w: World, id: ID)
    requires Sole(w, id)
    ensures DoomedWith(w, id) == [0] && Troubled(w, [id], Faults({0}, {}))
    ensures HandlesValid(w.layers.core.objs, w.images.images)
  {
    var k := w.layers.core;
    assert Doomed(k.objs, k.refCount, 0) == [0];
    assert [0][0] in {0};
    assert LayersFail(w, id, Faults({0}, {}));
  }

  lemma SoleLayerFails(w: World, id: ID)
    requires Sole(w, id) && HandlesValid(w.layers.core.objs, w.images.images)
    ensures var (v, r) := Delete(w, id, Faults({0}, {}));
      id !in v.images.images && r == DeletedWith(Released(Failed))
  {
    SoleIsDoomed(w, id);
    ReleaseFailsIff(w.layers, Handle(0, 1), Faults({0}, {}));
  }
}
