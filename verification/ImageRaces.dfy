/**
 What may fall between the two steps of a `Create`: a `Delete` of the same image takes away the
 configuration that was just written, and the image is then stored without one.
 */
module ImageRaces {
  import opened ChainIds
  import opened LayerState
  import opened ImageState
  import opened ImageWorld
  import opened ImageRuns
  import Whole = LayerRegister

  /** Every image has its configuration. */
  ghost predicate Backed(w: Site) {
    forall id :: id in w.world.images.images ==> id in w.world.images.content
  }

  /** The configuration of every `Create` under way is still there. */
  ghost predicate Fresh(w: Site) {
    forall q :: q in w.pending ==> w.world.layers.digest(w.pending[q]) in w.world.images.content
  }

  /** The step deletes a stored image while a `Create` of the same image is between its steps. */
  ghost predicate Races(w: Site, e: SiteStep) {
    && e.DeleteStep? && e.id in w.world.images.images
    && exists q :: q in w.pending && w.world.layers.digest(w.pending[q]) == e.id
  }

  lemma DeleteRaces(w: Site, parse: Parser, e: SiteStep)
    requires Sane(w, parse) && Backed(w) && Fresh(w) && e.DeleteStep?
    ensures var n := NextSite(w, parse, e); Backed(n) && Fresh(n) <==> !Races(w, e)
  {
    var n, im := NextSite(w, parse, e), w.world.images;
    if e.id in im.images {
      assert n.world.images == DeleteImage(im, e.id);
      assert n.world.images.content == im.content - {e.id} && n.world.images.images.Keys == im.images.Keys - {e.id};
      if Races(w, e) {
        var q :| q in w.pending && w.world.layers.digest(w.pending[q]) == e.id;
        assert q in n.pending;
      }
    }
  }

  /** A step keeps the configurations of all images and of all calls of `Create` under way in place exactly if it
      is not such a deletion. */
  lemma NextBackedIff(w: Site, parse: Parser, e: SiteStep)
    requires Sane(w, parse) && Backed(w) && Fresh(w)
    ensures var n := NextSite(w, parse, e); Backed(n) && Fresh(n) <==> !Races(w, e)
  {
    match e
    case DeleteStep(_, _) => DeleteRaces(w, parse, e);
    case SetParentStep(id, parent) =>
      assert SetParent(w.world.images, id, parent).0.images.Keys == w.world.images.images.Keys;
    case LayerStep(_) =>
    case WriteStep(_, _, _) =>
    case FinishStep(_) =>
  }

  ghost predicate AlwaysBacked(w: Site, parse: Parser, steps: seq<SiteStep>)
    decreases |steps|
  {
    && Backed(w) && Fresh(w)
    && (steps != [] && Sane(w, parse) ==> AlwaysBacked(NextSite(w, parse, steps[0]), parse, steps[1..]))
  }

  ghost predicate NeverRaces(w: Site, parse: Parser, steps: seq<SiteStep>)
    decreases |steps|
  {
    steps != [] && Sane(w, parse) ==>
      !Races(w, steps[0]) && NeverRaces(NextSite(w, parse, steps[0]), parse, steps[1..])
  }

  /** Over a run, every image and every `Create` under way has its configuration all the time exactly if no
      deletion of an image falls between the two steps of a `Create` of the same image. */
  lemma {:induction false} BackedIffNoRace(w: Site, parse: Parser, steps: seq<SiteStep>)
    requires Backed(w) && Fresh(w)
    ensures AlwaysBacked(w, parse, steps) <==> NeverRaces(w, parse, steps)
    decreases |steps|
  {
    if steps != [] && Sane(w, parse) {
      NextBackedIff(w, parse, steps[0]);
      if !Races(w, steps[0]) {
        BackedIffNoRace(NextSite(w, parse, steps[0]), parse, steps[1..]);
      } else {
        NotAlways(NextSite(w, parse, steps[0]), parse, steps[1..]);
      }
    }
  }

  lemma NotAlways(w: Site, parse: Parser, steps: seq<SiteStep>)
    requires !(Backed(w) && Fresh(w))
    ensures !AlwaysBacked(w, parse, steps)
  {
  }

  /** As long as every image has its configuration, the stores are as the other operations expect them. */
  lemma BackedWorld(w: Site, parse: Parser)
    requires SiteInv(w, parse) && Backed(w)
    ensures WorldInv(w.world, parse)
  {
    var h, im, k := w.world.layers.digest, w.world.images, w.world.layers.core;
    forall id | id in im.images ensures ImageLinked(h, parse, im.content, im.images[id], id, k.handles, k.objs) {
      assert ImageLinked(h, parse, w.written, im.images[id], id, k.handles, k.objs);
    }
  }

  /** Whether the second step of a `Create` stores an image with its configuration, or no image at all. */
  ghost predicate Founded(w: Site, parse: Parser, config: string)
    requires parse(config).Some?
  {
    var id := w.world.layers.digest(config);
    var chain := CreateChainID(w.world.layers.digest, parse(config).value.diffIDs);
    || id in w.world.images.content || id in w.world.images.images
    || (chain != "" && chain !in w.world.layers.core.layerMap)
  }

  /** In the end it is the second step that goes wrong: after it every image has its configuration exactly
      if the one it stores is still there, or it stores none. */
  lemma FinishBackedIff(w: Site, parse: Parser, pid: Pid)
    requires Sane(w, parse) && Backed(w) && pid in w.pending
    ensures Backed(NextSite(w, parse, FinishStep(pid))) <==> Founded(w, parse, w.pending[pid])
  {
    var n, id := NextSite(w, parse, FinishStep(pid)), w.world.layers.digest(w.pending[pid]);
    assert n.world.images.content == w.world.images.content;
    if !Founded(w, parse, w.pending[pid]) {
      assert id in n.world.images.images;
    }
  }

  /** The step does not store an image without its configuration. */
  ghost predicate StoresFounded(w: Site, parse: Parser, e: SiteStep)
    requires Sane(w, parse)
  {
    e.FinishStep? && e.pid in w.pending ==> Founded(w, parse, w.pending[e.pid])
  }

  lemma NextStoredBackedIff(w: Site, parse: Parser, e: SiteStep)
    requires Sane(w, parse) && Backed(w)
    ensures Backed(NextSite(w, parse, e)) <==> StoresFounded(w, parse, e)
  {
    match e
    case FinishStep(pid) =>
      if pid in w.pending {
        FinishBackedIff(w, parse, pid);
      }
    case DeleteStep(id, _) =>
      if id in w.world.images.images {
        assert DeleteImage(w.world.images, id).images.Keys == w.world.images.images.Keys - {id};
      }
    case SetParentStep(id, parent) =>
      assert SetParent(w.world.images, id, parent).0.images.Keys == w.world.images.images.Keys;
    case LayerStep(_) =>
    case WriteStep(_, _, _) =>
  }

  ghost predicate AlwaysStoredBacked(w: Site, parse: Parser, steps: seq<SiteStep>)
    decreases |steps|
  {
    && Backed(w)
    && (steps != [] && Sane(w, parse) ==> AlwaysStoredBacked(NextSite(w, parse, steps[0]), parse, steps[1..]))
  }

  ghost predicate AlwaysFounded(w: Site, parse: Parser, steps: seq<SiteStep>)
    decreases |steps|
  {
    steps != [] && Sane(w, parse) ==>
      StoresFounded(w, parse, steps[0]) && AlwaysFounded(NextSite(w, parse, steps[0]), parse, steps[1..])
  }

  /** Over a run, every image has its configuration all the time exactly if no second step of a `Create` stores
      an image whose configuration is gone by then. */
  lemma {:induction false} StoredBackedIff(w: Site, parse: Parser, steps: seq<SiteStep>)
    requires Backed(w)
    ensures AlwaysStoredBacked(w, parse, steps) <==> AlwaysFounded(w, parse, steps)
    decreases |steps|
  {
    if steps != [] && Sane(w, parse) {
      NextStoredBackedIff(w, parse, steps[0]);
      if StoresFounded(w, parse, steps[0]) {
        StoredBackedIff(NextSite(w, parse, steps[0]), parse, steps[1..]);
      } else {
        NotAlwaysStored(NextSite(w, parse, steps[0]), parse, steps[1..]);
      }
    }
  }

  lemma NotAlwaysStored(w: Site, parse: Parser, steps: seq<SiteStep>)
    requires !Backed(w)
    ensures !AlwaysStoredBacked(w, parse, steps)
  {
  }

  // ----- What deletion relies on, in every run -----

  lemma NextIndexed(w: Site, parse: Parser, e: SiteStep)
    requires Sane(w, parse) && Indexed(w.world.images)
    ensures Indexed(NextSite(w, parse, e).world.images)
  {
    var im := w.world.images;
    match e
    case FinishStep(pid) =>
      if pid in w.pending {
        var h := w.world.layers.digest;
        var id, chain := h(w.pending[pid]), CreateChainID(h, parse(w.pending[pid]).value.diffIDs);
        if id !in im.images {
          AddIndexed(im, id, None);
          AddIndexed(im, id, Whole.Get(w.world.layers, chain).1);
        }
      }
    case DeleteStep(id, _) =>
      if id in im.images {
        DeleteIndexed(im, id);
      }
    case SetParentStep(id, parent) => SetParentIndexed(im, id, parent);
    case WriteStep(_, config, _) =>
      assert Indexed(im.(content := im.content[w.world.layers.digest(config) := config]));
    case LayerStep(_) =>
  }

  /** In every run, moves and races included, images hold their layers, and every stored parent is an image that
      has the child in its index: the store is as deletion needs it. */
  lemma {:induction false} RunReadyForDeletion(w: Site, parse: Parser, steps: seq<SiteStep>, v: Site)
    requires SiteInv(w, parse) && Injective(w.world.layers.digest) && Indexed(w.world.images)
    requires SiteReaches(w, parse, steps, v)
    ensures Held(v.world) && Indexed(v.world.images)
    decreases |steps|
  {
    if steps == [] {
      LinkedHeld(w.world.layers, parse, Recalled(w), w.world.images);
    } else {
      NextSiteInv(w, parse, steps[0]);
      NextIndexed(w, parse, steps[0]);
      RunReadyForDeletion(NextSite(w, parse, steps[0]), parse, steps[1..], v);
    }
  }

  // ----- The index of children -----

  /** The step gives no image a second parent, no parent to a missing image, and stores no image without
      its configuration. */
  ghost predicate Proper(w: Site, parse: Parser, e: SiteStep)
    requires Sane(w, parse)
  {
    match e
    case SetParentStep(id, parent) => parent !in w.world.images.images || MayBeChild(w.world.images, id, parent)
    case FinishStep(pid) => pid in w.pending ==> Founded(w, parse, w.pending[pid])
    case _ => true
  }

  lemma FinishConsistent(w: Site, parse: Parser, pid: Pid)
    requires Sane(w, parse) && Consistent(w.world.images) && pid in w.pending
    ensures Consistent(NextSite(w, parse, FinishStep(pid)).world.images) <==> Founded(w, parse, w.pending[pid])
  {
    FinishBackedIff(w, parse, pid);
    var im, n, id := w.world.images, NextSite(w, parse,
                                              FinishStep(pid)).world.images, w.world.layers.digest(w.pending[pid]);
    if n != im {
      assert id !in im.images && n.parents == im.parents;
      assert n.images == im.images[id := ImageMeta(n.images[id].layer, {})];
      NewImageIndexed(im, id, n.images[id].layer);
    }
  }

  lemma NewImageIndexed(im: Images, id: ID, layer: Option<Handle>)
    requires Consistent(im) && id !in im.images
    ensures Inverse(AddImage(im, id, layer).images, im.parents)
    ensures NoDangling(AddImage(im, id, layer).images, im.parents)
  {
  }

  /** A step keeps the children index the exact inverse of the stored parents, with nothing dangling, exactly
      if it is proper. */
  lemma NextConsistentIff(w: Site, parse: Parser, e: SiteStep)
    requires Sane(w, parse) && Consistent(w.world.images)
    ensures Consistent(NextSite(w, parse, e).world.images) <==> Proper(w, parse, e)
  {
    match e
    case LayerStep(_) =>
    case WriteStep(_, config, _) =>
      assert Consistent(w.world.images.(content := w.world.images.content[w.world.layers.digest(config) := config]));
    case FinishStep(pid) =>
      if pid in w.pending {
        FinishConsistent(w, parse, pid);
      }
    case DeleteStep(id, _) =>
      if id in w.world.images.images {
        DeleteEffect(w.world.images, id);
      }
    case SetParentStep(id, parent) => SetParentConsistent(w.world.images, id, parent);
  }

  ghost predicate AlwaysConsistent(w: Site, parse: Parser, steps: seq<SiteStep>)
    decreases |steps|
  {
    && Consistent(w.world.images)
    && (steps != [] && Sane(w, parse) ==> AlwaysConsistent(NextSite(w, parse, steps[0]), parse, steps[1..]))
  }

  ghost predicate AlwaysProper(w: Site, parse: Parser, steps: seq<SiteStep>)
    decreases |steps|
  {
    steps != [] && Sane(w, parse) ==>
      Proper(w, parse, steps[0]) && AlwaysProper(NextSite(w, parse, steps[0]), parse, steps[1..])
  }

  /** Over a run, the children of every stored image are the exact inverse of the stored parents and nothing
      dangles, all the time, exactly if every step is proper. */
  lemma {:induction false} IndexConsistentIff(w: Site, parse: Parser, steps: seq<SiteStep>)
    requires Consistent(w.world.images)
    ensures AlwaysConsistent(w, parse, steps) <==> AlwaysProper(w, parse, steps)
    decreases |steps|
  {
    if steps != [] && Sane(w, parse) {
      NextConsistentIff(w, parse, steps[0]);
      if Proper(w, parse, steps[0]) {
        IndexConsistentIff(NextSite(w, parse, steps[0]), parse, steps[1..]);
      } else {
        NotAlwaysConsistent(NextSite(w, parse, steps[0]), parse, steps[1..]);
      }
    }
  }

  lemma NotAlwaysConsistent(w: Site, parse: Parser, steps: seq<SiteStep>)
    requires !Consistent(w.world.images)
    ensures !AlwaysConsistent(w, parse, steps)
  {
  }

  lemma {:induction false} AlwaysAtEnd(w: Site, parse: Parser, steps: seq<SiteStep>, v: Site)
    requires SiteReaches(w, parse, steps, v) && AlwaysConsistent(w, parse, steps)
    ensures Consistent(v.world.images)
    decreases |steps|
  {
    if steps != [] {
      AlwaysAtEnd(NextSite(w, parse, steps[0]), parse, steps[1..], v);
    }
  }

  /** So after a run of proper steps the index is consistent. */
  lemma IndexStaysConsistent(w: Site, parse: Parser, steps: seq<SiteStep>, v: Site)
    requires Consistent(w.world.images) && SiteReaches(w, parse, steps, v) && AlwaysProper(w, parse, steps)
    ensures Consistent(v.world.images)
  {
    IndexConsistentIff(w, parse, steps);
    AlwaysAtEnd(w, parse, steps, v);
  }

  // ----- A run with the race -----

  /** A site that stores one image without layers, with some calls of `Create` for it between their steps. */
  ghost predicate Plain(w: Site, h: Digest, config: string, stored: bool, there: bool, pending: map<Pid, string>) {
    && w.world.layers == Init(h) && w.pending == pending
    && w.world.images.images == (if stored then map[h(config) := ImageMeta(None, {})] else map[])
    && w.world.images.content == (if there then map[h(config) := config] else map[])
    && w.world.images.parents == map[]
  }

  lemma PlainSane(w: Site, parse: Parser, h: Digest, config: string, stored: bool, there: bool, pending: map<Pid,
                  string>)
    requires Plain(w, h, config, stored, there, pending) && parse(config).Some?
    requires forall q :: q in pending ==> pending[q] == config
    ensures Sane(w, parse)
  {
  }

  lemma PlainWrite(w: Site, parse: Parser, h: Digest, config: string, stored: bool, there: bool, pending: map<Pid,
                   string>, pid: Pid)
    requires Plain(w, h, config, stored, there, pending) && config != "" && parse(config) == Some(Image([], []))
    requires Sane(w, parse) && pid !in pending
    ensures Plain(NextSite(w, parse, WriteStep(pid, config, true)), h, config, stored, true, pending[pid := config])
  {
  }

  lemma PlainFinish(w: Site, parse: Parser, h: Digest, config: string, stored: bool, there: bool, pending: map<Pid,
                    string>, pid: Pid)
    requires Plain(w, h, config, stored, there, pending) && parse(config) == Some(Image([], []))
    requires Sane(w, parse) && pid in pending && pending[pid] == config
    ensures Plain(NextSite(w, parse, FinishStep(pid)), h, config, true, there, pending - {pid})
  {
    assert CreateChainID(h, []) == "";
  }

  lemma PlainDelete(w: Site, parse: Parser, h: Digest, config: string, pending: map<Pid, string>)
    requires Plain(w, h, config, true, true, pending) && Sane(w, parse)
    ensures Plain(NextSite(w, parse, DeleteStep(h(config), NoFaults)), h, config, false, false, pending)
  {
  }

  /** The second half of the run below: the image is deleted, and the `Create` under way goes on. */
  lemma RaceEnds(d: Site, h: Digest, parse: Parser, config: string) returns (w: Site, steps: seq<SiteStep>)
    requires config != "" && parse(config) == Some(Image([], [])) && Plain(d, h, config, true, true, map[1 := config])
    ensures SiteReaches(d, parse, steps, w)
    ensures h(config) in w.world.images.images && h(config) !in w.world.images.content
  {
    var delete, finish := DeleteStep(h(config), NoFaults), FinishStep(1);
    PlainSane(d, parse, h, config, true, true, map[1 := config]);
    PlainDelete(d, parse, h, config, map[1 := config]);
    var f := NextSite(d, parse, delete);
    PlainSane(f, parse, h, config, false, false, map[1 := config]);
    PlainFinish(f, parse, h, config, false, false, map[1 := config], 1);
    w := NextSite(f, parse, finish);
    assert Plain(w, h, config, true, false, map[1 := config] - {1});
    StepReaches(f, parse, finish, [], w);
    StepReaches(d, parse, delete, [finish] + [], w);
    steps := [delete] + ([finish] + []);
  }

  /** Two calls of `Create` for the same configuration and a `Delete` between the steps of the second: the
      image is stored, and its configuration is not. */
  lemma RaceLosesConfiguration(h: Digest, parse: Parser, config: string) returns (w: Site, steps: seq<SiteStep>)
    requires config != "" && parse(config) == Some(Image([], []))
    ensures SiteReaches(InitSite(h), parse, steps, w)
    ensures h(config) in w.world.images.images && h(config) !in w.world.images.content
  {
    var a := InitSite(h);
    PlainSane(a, parse, h, config, false, false, map[]);
    PlainWrite(a, parse, h, config, false, false, map[], 0);
    var b := NextSite(a, parse, WriteStep(0, config, true));
    PlainSane(b, parse, h, config, false, true, map[0 := config]);
    PlainFinish(b, parse, h, config, false, true, map[0 := config], 0);
    var c := NextSite(b, parse, FinishStep(0));
    assert map[0 := config] - {0} == map[];
    PlainSane(c, parse, h, config, true, true, map[]);
    PlainWrite(c, parse, h, config, true, true, map[], 1);
    var rest;
    w, rest := RaceEnds(NextSite(c, parse, WriteStep(1, config, true)), h, parse, config);
    StepReaches(c, parse, WriteStep(1, config, true), rest, w);
    rest := [WriteStep(1, config, true)] + rest;
    StepReaches(b, parse, FinishStep(0), rest, w);
    rest := [FinishStep(0)] + rest;
    StepReaches(a, parse, WriteStep(0, config, true), rest, w);
    steps := [WriteStep(0, config, true)] + rest;
  }

  lemma StepReaches(w: Site, parse: Parser, e: SiteStep, rest: seq<SiteStep>, v: Site)
    requires Sane(w, parse) && SiteReaches(NextSite(w, parse, e), parse, rest, v)
    ensures SiteReaches(w, parse, [e] + rest, v)
  {
    assert ([e] + rest)[1..] == rest;
  }
}
