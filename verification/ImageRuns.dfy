/**
 Runs of the image store on top of the layer store, with other clients of the layer store at work between
 its steps.  `Create` writes the configuration before it takes the lock, so it is two steps, and anything
 may happen between them.
 */
module ImageRuns {
  import opened ChainIds
  import opened LayerState
  import opened LayerSafety
  import opened ImageState
  import opened ImageWorld
  import Whole = LayerRegister

  /** The stores, every configuration ever written, and the calls of `Create` between their two steps. */
  datatype Site = Site(world: World, written: map<ID, string>, pending: map<Pid, string>)

  function InitSite(h: Digest): Site {
    Site(World(Init(h), NoImages), map[], map[])
  }

  datatype SiteStep =
    | LayerStep(e: Step)                                   // another client of the layer store
    | WriteStep(pid: Pid, config: string, writeOk: bool)   // the first part of Create
    | FinishStep(pid: Pid)                                 // the second
    | DeleteStep(id: ID, io: Faults)
    | SetParentStep(id: ID, parent: ID)

  /** Pointers are valid, so that the step can be made. */
  ghost predicate Sane(w: Site, parse: Parser) {
    && Wf(w.world.layers.core) && HandlesValid(w.world.layers.core.objs, w.world.images.images)
    && forall q :: q in w.pending ==> parse(w.pending[q]).Some?
  }

  ghost function NextSite(w: Site, parse: Parser, e: SiteStep): Site
    requires Sane(w, parse)
  {
    match e
    case LayerStep(l) =>
      if l.SRelease? && Owned(w.world.images.images, l.handle) then w
      else w.(world := w.world.(layers := Next(w.world.layers, l)))
    case WriteStep(pid, config, writeOk) =>
      if pid in w.pending || !Writes(parse, config, writeOk) then w
      else Site(Write(w.world, config), w.written[w.world.layers.digest(config) := config], w.pending[pid := config])
    case FinishStep(pid) =>
      if pid !in w.pending then w
      else w.(world := Finish(w.world, parse, w.pending[pid]).0, pending := w.pending - {pid})
    case DeleteStep(id, io) => w.(world := Delete(w.world, id, io).0)
    case SetParentStep(id, parent) => w.(world := w.world.(images := SetParent(w.world.images, id, parent).0))
  }

  ghost predicate SiteReaches(w: Site, parse: Parser, steps: seq<SiteStep>, v: Site)
    decreases |steps|
  {
    if steps == [] then w == v
    else Sane(w, parse) && SiteReaches(NextSite(w, parse, steps[0]), parse, steps[1..], v)
  }

  /** An uninterrupted `Create` is the run of its two steps. */
  lemma CreateIsRun(w: Site, parse: Parser, pid: Pid, config: string, writeOk: bool)
    requires Sane(w, parse) && pid !in w.pending
    ensures var v := NextSite(w, parse, WriteStep(pid, config, writeOk));
      Sane(v, parse) && NextSite(v, parse, FinishStep(pid)).world == Create(w.world, parse, config, writeOk).0
  {
  }

  // ----- The layer store sees an ordinary run -----

  /** What a step of the image store does to the layer store is a run of the layer store. */
  lemma LayerSteps(w: Site, parse: Parser, e: SiteStep) returns (steps: seq<Step>)
    requires Sane(w, parse)
    ensures Reaches(w.world.layers, steps, NextSite(w, parse, e).world.layers)
    ensures forall x :: x in steps && x.SRegister? ==> e.LayerStep? && x == e.e
  {
    steps := [];
    var s := w.world.layers;
    match e
    case LayerStep(l) =>
      if !(l.SRelease? && Owned(w.world.images.images, l.handle)) {
        steps := [l];
        OneStep(s, l);
      }
    case FinishStep(pid) =>
      if NextSite(w, parse, e).world.layers != s {
        var chain := CreateChainID(s.digest, parse(w.pending[pid]).value.diffIDs);
        steps := GetSteps(s, chain);
      }
    case DeleteStep(id, io) =>
      if id in w.world.images.images && w.world.images.images[id].layer.Some? {
        var h := w.world.images.images[id].layer.value;
        steps := [SRelease(h, io)];
        OneStep(s, SRelease(h, io));
      }
    case WriteStep(_, _, _) =>
    case SetParentStep(_, _) =>
  }

  lemma GetSteps(s: State, chain: string) returns (steps: seq<Step>)
    requires Wf(s.core)
    ensures Reaches(s, steps, Whole.Get(s, chain).0) && forall x :: x in steps ==> !x.SRegister?
  {
    var pid := Whole.FreshPid(s.core.procs.Keys);
    Whole.GetIsRun(s, pid, chain);
    steps := [SGet(pid, chain), SGetFinish(pid)];
  }

  lemma {:induction false} LayerTrace(w: Site, parse: Parser, steps: seq<SiteStep>, v: Site) returns (trace: seq<Step>)
    requires SiteReaches(w, parse, steps, v)
    ensures Reaches(w.world.layers, trace, v.world.layers)
    ensures forall x :: x in trace && x.SRegister? ==> LayerStep(x) in steps
    decreases |steps|
  {
    if steps == [] {
      trace := [];
    } else {
      var n := NextSite(w, parse, steps[0]);
      var first := LayerSteps(w, parse, steps[0]);
      var rest := LayerTrace(n, parse, steps[1..], v);
      RunConcat(w.world.layers, first, n.world.layers, rest, v.world.layers);
      trace := first + rest;
    }
  }

  // ----- Every image holds on to its layer, whatever is interleaved -----

  /** The images, with every configuration ever written for content. */
  function Recalled(w: Site): Images {
    w.world.images.(content := w.written)
  }

  ghost predicate Known(h: Digest, content: map<ID, string>, written: map<ID, string>, pending: map<Pid, string>) {
    && (forall id :: id in content ==> id in written && content[id] == written[id])
    && (forall q :: q in pending ==> h(pending[q]) in written && written[h(pending[q])] == pending[q])
  }

  /** Each image has a handle of its own on the layer of the configuration it was made from, and what is on
      disk was written. */
  ghost predicate SiteInv(w: Site, parse: Parser) {
    var s := w.world.layers;
    && Inv(s) && Linked(s.digest, parse, Recalled(w), s.core.handles, s.core.objs)
    && Known(s.digest, w.world.images.content, w.written, w.pending)
  }

  lemma SiteSane(w: Site, parse: Parser)
    requires SiteInv(w, parse)
    ensures Sane(w, parse)
  {
    var im, k, h := Recalled(w), w.world.layers.core, w.world.layers.digest;
    forall id | id in im.images && im.images[id].layer.Some? ensures im.images[id].layer.value.obj in k.objs {
      assert ImageLinked(h, parse, im.content, im.images[id], id, k.handles, k.objs);
    }
    forall q | q in w.pending ensures parse(w.pending[q]).Some? {
      assert h(w.pending[q]) in w.written;
    }
  }

  lemma LayerStepSite(w: Site, parse: Parser, e: Step)
    requires SiteInv(w, parse) && !(e.SRelease? && Owned(w.world.images.images, e.handle))
    ensures SiteInv(w.(world := w.world.(layers := Next(w.world.layers, e))), parse)
  {
    var s := w.world.layers;
    NextInv(s, e);
    NextKeeps(s, e);
    KeepsLinked(s.digest, parse, Recalled(w), s.core, Next(s, e).core, if e.SRelease? then Some(e.handle) else None);
  }

  lemma WriteSite(w: Site, parse: Parser, pid: Pid, config: string)
    requires SiteInv(w, parse) && Injective(w.world.layers.digest) && Writes(parse, config, true)
    ensures SiteInv(Site(Write(w.world, config), w.written[w.world.layers.digest(config) := config],
                         w.pending[pid := config]), parse)
  {
    var s := w.world.layers;
    WriteLinked(s.digest, parse, Recalled(w), config, s.core.handles, s.core.objs);
    WriteKnown(s.digest, w.world.images.content, w.written, w.pending, pid, config);
  }

  lemma WriteKnown(h: Digest, content: map<ID, string>, written: map<ID, string>, pending: map<Pid, string>,
                   pid: Pid, config: string)
    requires Injective(h) && Known(h, content, written, pending)
    ensures Known(h, content[h(config) := config], written[h(config) := config], pending[pid := config])
  {
  }

  lemma FinishSite(w: Site, parse: Parser, pid: Pid)
    requires SiteInv(w, parse) && pid in w.pending && parse(w.pending[pid]).Some?
    ensures SiteInv(w.(world := Finish(w.world, parse, w.pending[pid]).0, pending := w.pending - {pid}), parse)
  {
    FinishLinked(w.world, parse, w.pending[pid], Recalled(w));
  }

  lemma DeleteSite(w: Site, parse: Parser, id: ID, io: Faults)
    requires SiteInv(w, parse) && Sane(w, parse)
    ensures SiteInv(w.(world := Delete(w.world, id, io).0), parse)
  {
    var s, im := w.world.layers, w.world.images;
    if id in im.images {
      var n, layer := DeleteImage(im, id), im.images[id].layer;
      assert forall x :: x in n.images ==> x in im.images && x != id && n.images[x].layer == im.images[x].layer;
      FewerLinked(s.digest, parse, Recalled(w), n.images, s.core.handles, s.core.objs);
      if layer.Some? {
        Whole.ReleaseInv(s, layer.value, io);
        ReleaseKeeps(s, layer.value, io);
        KeepsLinked(s.digest, parse, n.(content := w.written, parents := im.parents), s.core,
                    Release(s, layer.value, io).0.core, layer);
      }
    }
  }

  lemma SetParentKeepsLayers(im: Images, id: ID, parent: ID)
    ensures var n := SetParent(im, id, parent).0;
      && n.content == im.content && n.images.Keys == im.images.Keys
      && forall x :: x in n.images ==> n.images[x].layer == im.images[x].layer
  {
  }

  lemma SetParentSite(w: Site, parse: Parser, id: ID, parent: ID)
    requires SiteInv(w, parse)
    ensures SiteInv(w.(world := w.world.(images := SetParent(w.world.images, id, parent).0)), parse)
  {
    var s, im := w.world.layers, w.world.images;
    SetParentKeepsLayers(im, id, parent);
    var n := SetParent(im, id, parent).0;
    FewerLinked(s.digest, parse, Recalled(w), n.images, s.core.handles, s.core.objs);
    LinkedIgnoresParents(s.digest, parse, Recalled(w).(images := n.images), n.parents, s.core.handles, s.core.objs);
  }

  lemma LinkedIgnoresParents(h: Digest, parse: Parser, im: Images, parents: map<ID, ID>, handles: set<Handle>,
                             objs: map<Obj, RoLayer>)
    requires Linked(h, parse, im, handles, objs)
    ensures Linked(h, parse, im.(parents := parents), handles, objs)
  {
  }

  /** Every step keeps one private handle per image, on the layer with the ChainID of the configuration it
      was made from, whatever falls between the two steps of a `Create`. */
  lemma NextSiteInv(w: Site, parse: Parser, e: SiteStep)
    requires SiteInv(w, parse) && Injective(w.world.layers.digest) && Sane(w, parse)
    ensures SiteInv(NextSite(w, parse, e), parse) && NextSite(w, parse, e).world.layers.digest == w.world.layers.digest
  {
    match e
    case LayerStep(l) =>
      if !(l.SRelease? && Owned(w.world.images.images, l.handle)) {
        LayerStepSite(w, parse, l);
      }
    case WriteStep(pid, config, writeOk) =>
      if pid !in w.pending && Writes(parse, config, writeOk) {
        WriteSite(w, parse, pid, config);
      }
    case FinishStep(pid) =>
      if pid in w.pending {
        FinishSite(w, parse, pid);
      }
    case DeleteStep(id, io) => DeleteSite(w, parse, id, io);
    case SetParentStep(id, parent) => SetParentSite(w, parse, id, parent);
  }

  lemma {:induction false} RunSiteInv(w: Site, parse: Parser, steps: seq<SiteStep>, v: Site)
    requires SiteInv(w, parse) && Injective(w.world.layers.digest) && SiteReaches(w, parse, steps, v)
    ensures SiteInv(v, parse) && v.world.layers.digest == w.world.layers.digest
    decreases |steps|
  {
    if steps != [] {
      NextSiteInv(w, parse, steps[0]);
      RunSiteInv(NextSite(w, parse, steps[0]), parse, steps[1..], v);
    }
  }

  /** Any list of steps is a run: none gets stuck. */
  lemma {:induction false} SiteRunExists(w: Site, parse: Parser, steps: seq<SiteStep>) returns (v: Site)
    requires SiteInv(w, parse) && Injective(w.world.layers.digest)
    ensures SiteReaches(w, parse, steps, v)
    decreases |steps|
  {
    if steps == [] {
      v := w;
    } else {
      SiteSane(w, parse);
      NextSiteInv(w, parse, steps[0]);
      v := SiteRunExists(NextSite(w, parse, steps[0]), parse, steps[1..]);
    }
  }
}
