/**
 What the calls of the image store answer, and what they leave behind, told by what is there before the
 call.
 */
module ImageAnswers {
  import opened ChainIds
  import opened LayerState
  import opened LayerSafety
  import opened LayerRetention
  import opened ImageState
  import opened ImageWorld

  /** The positions of the history entries that made a layer. */
  function Layered(history: seq<HistoryEntry>): set<nat> {
    set i: nat | i < |history| && !history[i].emptyLayer
  }

  lemma {:induction false} CountsLayered(history: seq<HistoryEntry>)
    ensures NonEmptyLayers(history) == |Layered(history)|
  {
    if history == [] {
      assert Layered(history) == {};
    } else {
      var n := |history| - 1;
      CountsLayered(history[..n]);
      if history[n].emptyLayer {
        assert Layered(history) == Layered(history[..n]);
      } else {
        assert Layered(history) == Layered(history[..n]) + {n};
      }
    }
  }

  /** The configuration can be read, and its history speaks of no more layers than it has DiffIDs. */
  predicate Sensible(parse: Parser, config: string) {
    parse(config).Some? && |Layered(parse(config).value.history)| <= |parse(config).value.diffIDs|
  }

  /** The image is stored already, or its layer can be looked up. */
  predicate Available(w: World, parse: Parser, config: string)
    requires parse(config).Some?
  {
    var chain := CreateChainID(w.layers.digest, parse(config).value.diffIDs);
    w.layers.digest(config) in w.images.images || chain == "" || chain in w.layers.core.layerMap
  }

  /** When `Create` answers what: a configuration that is not sensible is rejected, and any other gives the image of its
      digest if it can be written and the image is there already or can get its layer. */
  lemma CreateAnswers(w: World, parse: Parser, config: string, writeOk: bool)
    requires Wf(w.layers.core)
    ensures var r, sensible := Create(w, parse, config, writeOk).1, Sensible(parse, config);
      && (r == Created(w.layers.digest(config)) <==>
            sensible && config != "" && writeOk && Available(w, parse, config))
      && (r.Created? ==> r.id == w.layers.digest(config))
      && (r.Rejected? <==> !sensible)
      && (r.NotCreated? <==> sensible && (config == "" || !writeOk || !Available(w, parse, config)))
  {
    if parse(config).Some? {
      CountsLayered(parse(config).value.history);
    }
  }

  /** A new handle on the layer of the ChainID was given out, or none if there is no ChainID. */
  ghost predicate Given(s: State, t: State, chain: string, layer: Option<Handle>) {
    if chain == "" then layer.None? && t == s
    else
      && layer.Some? && layer.value !in s.core.handles && t.core.handles == s.core.handles + {layer.value}
      && InMap(t.core.objs, t.core.layerMap, layer.value.obj) && t.core.objs[layer.value.obj].chainID == chain
  }

  /** A `Create` that succeeds leaves the image stored: as it was if it was there, and else without children, with a
      new handle on the layer of its DiffIDs, or without a layer if it has none.  Other images keep what they have. */
  lemma CreateStores(w: World, parse: Parser, config: string, writeOk: bool)
    requires Inv(w.layers) && Create(w, parse, config, writeOk).1.Created?
    ensures parse(config).Some?
    ensures var v, id := Create(w, parse, config, writeOk).0, w.layers.digest(config);
      var chain := CreateChainID(w.layers.digest, parse(config).value.diffIDs);
      && id in v.images.images && v.images.images == w.images.images[id := v.images.images[id]]
      && v.images.content == w.images.content[id := config] && v.images.parents == w.images.parents
      && (id in w.images.images ==> v.images.images == w.images.images && v.layers == w.layers)
      && (id !in w.images.images ==>
            v.images.images[id].children == {} && Given(w.layers, v.layers, chain, v.images.images[id].layer))
  {
    var id := w.layers.digest(config);
    if id in w.images.images {
      assert w.images.images[id := w.images.images[id]] == w.images.images;
    }
  }

  /** A `Create` that does not succeed leaves the images, their parents and the layers alone; the configuration is on
      disk exactly if it could be written. */
  lemma CreateLeaves(w: World, parse: Parser, config: string, writeOk: bool)
    requires Wf(w.layers.core) && !Create(w, parse, config, writeOk).1.Created?
    ensures var v := Create(w, parse, config, writeOk).0;
      && v.layers == w.layers && v.images.images == w.images.images && v.images.parents == w.images.parents
      && v.images.content == if Sensible(parse, config) && config != "" && writeOk
                             then w.images.content[w.layers.digest(config) := config] else w.images.content
  {
    if parse(config).Some? {
      CountsLayered(parse(config).value.history);
    }
  }

  /** `Delete` knows exactly the stored images.  The layer of one that has a layer is released, and the answer is what
      the release of its handle answers; otherwise the layers are left alone. */
  lemma DeleteAnswers(w: World, id: ID, io: Faults)
    requires Held(w) && HandlesValid(w.layers.core.objs, w.images.images)
    ensures var (v, r) := Delete(w, id, io);
      && (r.Unrecognized? <==> id !in w.images.images)
      && (r.Unrecognized? ==> v == w)
      && (id in w.images.images ==>
            && id !in v.images.images && id !in v.images.content && id !in v.images.parents
            && v.images.images.Keys == w.images.images.Keys - {id} && v.images.content == w.images.content - {id}
            && (r.DeletedQuietly? <==> w.images.images[id].layer.None?)
            && (w.images.images[id].layer.None? ==> v.layers == w.layers)
            && (w.images.images[id].layer.Some? ==>
                  && r.DeletedWith? && r.outcome.Released?
                  && v.layers.core.handles == w.layers.core.handles - {w.images.images[id].layer.value}))
  {
    if id in w.images.images && w.images.images[id].layer.Some? {
      var _ := ReleaseRemoves(w.layers, w.images.images[id].layer.value, io);
    }
  }

  /** `SetParent` succeeds exactly if the parent is an image and the configuration of the child is stored.  The child
      joins the parent's children whenever the parent is an image, and no other image changes. */
  lemma SetParentAnswers(im: Images, id: ID, parent: ID)
    ensures var (n, ok) := SetParent(im, id, parent);
      && (ok <==> parent in im.images && id in im.content)
      && n.content == im.content && n.images.Keys == im.images.Keys
      && (parent !in im.images ==> n == im)
      && (forall x :: x in n.images ==>
            && n.images[x].layer == im.images[x].layer
            && n.images[x].children == im.images[x].children + (if x == parent then {id} else {}))
      && n.parents == if ok then im.parents[id := parent] else im.parents
  {
    assert forall s: set<ID> :: s + {} == s;
  }
}
