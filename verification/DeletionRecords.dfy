/**
 What `ImageDelete` reports: the references it took away, the images it deleted and the layers that went
 with each of them.
 */
module DeletionRecords {
  import opened LayerState
  import opened LayerRetention
  import opened ImageState
  import opened ImageWorld
  import opened ImageDeletion
  import opened DeletionFaults

  datatype Record = Untagged(reference: Ref) | Deleted(image: ID) | DeletedLayer(chainID: string)

  function LayerRecords(layers: seq<Metadata>): seq<Record> {
    seq(|layers|, i requires 0 <= i < |layers| => DeletedLayer(layers[i].chainID))
  }

  /** The images recorded as deleted, in order. */
  function DeletedImages(records: seq<Record>): seq<ID> {
    if records == [] then []
    else
      var last := records[|records| - 1];
      DeletedImages(records[..|records| - 1]) + if last.Deleted? then [last.image] else []
  }

  lemma {:induction false} DeletedImagesMore(records: seq<Record>, more: seq<Record>)
    requires forall i :: 0 <= i < |more| ==> !more[i].Deleted?
    ensures DeletedImages(records + more) == DeletedImages(records)
    decreases |more|
  {
    if more == [] {
      assert records + more == records;
    } else {
      var n := |more| - 1;
      assert (records + more)[..|records + more| - 1] == records + more[..n];
      DeletedImagesMore(records, more[..n]);
    }
  }

  lemma DeletedImagesOne(records: seq<Record>, id: ID)
    ensures DeletedImages(records + [Deleted(id)]) == DeletedImages(records) + [id]
  {
    assert (records + [Deleted(id)])[..|records|] == records;
  }

  // ----- Lists without repetition -----

  /** The list has exactly the elements of the set, each once. */
  ghost predicate Lists(xs: seq<Record>, s: set<Record>) {
    multiset(xs) == multiset(s)
  }

  lemma ListsConcat(xs: seq<Record>, s: set<Record>, ys: seq<Record>, t: set<Record>)
    requires Lists(xs, s) && Lists(ys, t) && s !! t
    ensures Lists(xs + ys, s + t)
  {
    assert multiset(s + t) == multiset(s) + multiset(t);
  }

  lemma ListsLength(xs: seq<Record>, s: set<Record>)
    requires Lists(xs, s)
    ensures |xs| == |s|
  {
    assert |multiset(xs)| == |multiset(s)|;
  }

  lemma {:induction false} Listed(xs: seq<Record>, s: set<Record>)
    requires (forall x :: x in xs <==> x in s) && (forall i, j :: 0 <= i < j < |xs| ==> xs[i] != xs[j])
    ensures Lists(xs, s)
    decreases |xs|
  {
    if xs == [] {
      assert s == {};
    } else {
      var n := |xs| - 1;
      var rest := xs[..n];
      forall x ensures x in rest <==> x in s - {xs[n]} {
        assert x in xs <==> x in rest || x == xs[n];
      }
      Listed(rest, s - {xs[n]});
      assert xs == rest + [xs[n]];
      assert s == s - {xs[n]} + {xs[n]};
    }
  }

  // ----- References -----

  /** The references that were taken away. */
  ghost function UntaggedOf(refs: map<Ref, ID>, after: map<Ref, ID>): set<Record> {
    set r | r in refs && r !in after :: Untagged(r)
  }

  lemma UntagOne(refs: map<Ref, ID>, some: map<Ref, ID>, r: Ref)
    requires r in refs && r in some
    ensures UntaggedOf(refs, some - {r}) == UntaggedOf(refs, some) + {Untagged(r)}
    ensures Untagged(r) !in UntaggedOf(refs, some)
  {
  }

  lemma UntaggedTwice(refs: map<Ref, ID>, left: map<Ref, ID>, after: map<Ref, ID>)
    requires after.Keys <= left.Keys <= refs.Keys
    ensures UntaggedOf(refs, after) == UntaggedOf(refs, left) + UntaggedOf(left, after)
    ensures UntaggedOf(refs, left) !! UntaggedOf(left, after)
  {
    forall x ensures x in UntaggedOf(refs, after) <==> x in UntaggedOf(refs, left) + UntaggedOf(left, after) {
      if x.Untagged? {
        assert x.reference in after.Keys ==> x.reference in left.Keys;
        assert x.reference in left.Keys ==> x.reference in refs.Keys;
      }
    }
  }

  // ----- Layers -----

  /** The layers that go with an image. */
  ghost function GoneWith(w: World, id: ID, io: Faults): set<Record> {
    set c | c in w.layers.core.layerMap && c !in AfterDelete(w, id, io).layers.core.layerMap :: DeletedLayer(c)
  }

  lemma {:induction false} ChainsAre(objs: map<Obj, RoLayer>, path: seq<Obj>, c: string)
    requires IsPath(objs, path)
    ensures c in Chains(objs, path) <==> exists i :: 0 <= i < |path| && objs[path[i]].chainID == c
    decreases |path|
  {
    if path != [] {
      ChainsAre(objs, path[1..], c);
      if exists i :: 0 <= i < |path[1..]| && objs[path[1..][i]].chainID == c {
        var i :| 0 <= i < |path[1..]| && objs[path[1..][i]].chainID == c;
        assert path[i + 1] == path[1..][i];
      }
      if exists i :: 0 <= i < |path| && objs[path[i]].chainID == c {
        var i :| 0 <= i < |path| && objs[path[i]].chainID == c;
        assert i > 0 ==> path[1..][i - 1] == path[i];
      }
    }
  }

  lemma {:induction false} PathDescends(objs: map<Obj, RoLayer>, path: seq<Obj>, i: nat, j: nat)
    requires Acyclic(objs) && IsPath(objs, path) && i < j < |path|
    ensures path[j] < path[i]
    decreases j - i
  {
    assert objs[path[j - 1]].parent == Some(path[j]);
    if j - i > 1 {
      PathDescends(objs, path, i, j - 1);
    }
  }

  /** The layers a release reports are the ones that left the map, each once. */
  lemma ReportsLeft(k: Core, o: Obj, path: seq<Obj>, m: Core, layers: seq<Metadata>)
    requires Acyclic(k.objs) && IsRemoval(k, o, path, m) && |layers| == |path|
    requires forall i :: 0 <= i < |layers| ==> layers[i].chainID == k.objs[path[i]].chainID
    ensures Lists(LayerRecords(layers), set c | c in k.layerMap && c !in m.layerMap :: DeletedLayer(c))
  {
    var xs, s := LayerRecords(layers), set c | c in k.layerMap && c !in m.layerMap :: DeletedLayer(c);
    forall x ensures x in xs <==> x in s {
      if x.DeletedLayer? {
        ChainsAre(k.objs, path, x.chainID);
        if x in s {
          var i :| 0 <= i < |path| && k.objs[path[i]].chainID == x.chainID;
          assert xs[i] == x;
        }
        if x in xs {
          var i :| 0 <= i < |xs| && xs[i] == x;
          assert InMap(k.objs, k.layerMap, path[i]);
        }
      }
    }
    forall i, j | 0 <= i < j < |xs| ensures xs[i] != xs[j] {
      PathDescends(k.objs, path, i, j);
      assert InMap(k.objs, k.layerMap, path[i]) && InMap(k.objs, k.layerMap, path[j]);
    }
    Listed(xs, s);
  }

  /** The layers to report for a deleted image. */
  function RemovedWith(r: DeleteResult): seq<Metadata> {
    if r.DeletedWith? && r.outcome.Released? && r.outcome.result.Removed? then r.outcome.result.layers else []
  }

  /** Deleting an image reports the layers that go with it, unless their removal fails. */
  lemma DeleteReports(w: World, id: ID, io: Faults)
    requires Held(w) && id in w.images.images && HandlesValid(w.layers.core.objs, w.images.images)
    requires !LayersFail(w, id, io)
    ensures Lists(LayerRecords(RemovedWith(Delete(w, id, io).1)), GoneWith(w, id, io))
  {
    DeleteStored(w, id, io);
    if w.images.images[id].layer.Some? {
      var h := w.images.images[id].layer.value;
      var path := ReleaseReportsRemoved(w.layers, h, io);
      var (s, out) := Release(w.layers, h, io);
      ReportsLeft(w.layers.core, h.obj, path, s.core, out.result.layers);
    } else {
      assert GoneWith(w, id, io) == {};
    }
  }

  // ----- What a deletion reports -----

  /** One block for each image, in their order: the image, and directly after it the layers that went with it. */
  ghost predicate Blocks(w: World, ids: seq<ID>, io: Faults, records: seq<Record>)
    decreases |ids|
  {
    if ids == [] then records == []
    else
      var n := |GoneWith(w, ids[0], io)| + 1;
      && n <= |records| && records[0] == Deleted(ids[0]) && Lists(records[1..n], GoneWith(w, ids[0], io))
      && Blocks(AfterDelete(w, ids[0], io), ids[1..], io, records[n..])
  }

  function Block(id: ID, layers: seq<Record>): seq<Record> {
    [Deleted(id)] + layers
  }

  lemma BlocksCons(w: World, id: ID, ids: seq<ID>, io: Faults, layers: seq<Record>, rest: seq<Record>)
    requires Lists(layers, GoneWith(w, id, io)) && Blocks(AfterDelete(w, id, io), ids, io, rest)
    ensures Blocks(w, [id] + ids, io, Block(id, layers) + rest)
  {
    ListsLength(layers, GoneWith(w, id, io));
    var n, records, all := |layers| + 1, Block(id, layers) + rest, [id] + ids;
    assert records[1..n] == layers && records[n..] == rest && all[1..] == ids;
  }

  lemma BlocksSplit(w: World, ids: seq<ID>, io: Faults, records: seq<Record>)
    returns (layers: seq<Record>, rest: seq<Record>)
    requires ids != [] && Blocks(w, ids, io, records)
    ensures records == Block(ids[0], layers) + rest && Lists(layers, GoneWith(w, ids[0], io))
    ensures Blocks(AfterDelete(w, ids[0], io), ids[1..], io, rest)
  {
    var n := |GoneWith(w, ids[0], io)| + 1;
    layers, rest := records[1..n], records[n..];
    Pieces(records, n);
  }

  lemma Pieces(records: seq<Record>, n: nat)
    requires 0 < n <= |records|
    ensures records == [records[0]] + records[1..n] + records[n..]
  {
  }

  /** A deletion that fails because a layer cannot be removed. */
  predicate Stuck(r: DeleteResult) {
    r.DeletedWith? && !(r.outcome.Released? && r.outcome.result.Removed?)
  }

  /** What deleting one image does to the stores, and what there is to report of it. */
  lemma DeleteTold(w: World, id: ID, io: Faults)
    requires Held(w) && Indexed(w.images) && HandlesValid(w.layers.core.objs, w.images.images)
    ensures var (v, r) := Delete(w, id, io);
      && Held(v) && Indexed(v.images)
      && (r.Unrecognized? <==> id !in w.images.images) && (r.Unrecognized? ==> v == w)
      && (!r.Unrecognized? ==>
            && v.images == DeleteImage(w.images, id) && v == AfterDelete(w, id, io)
            && (Stuck(r) <==> LayersFail(w, id, io))
            && (!Stuck(r) ==> Blocks(w, [id], io, Block(id, LayerRecords(RemovedWith(r))))))
  {
    if id in w.images.images {
      DeleteStored(w, id, io);
      DeleteIndexed(w.images, id);
      if !LayersFail(w, id, io) {
        DeleteReports(w, id, io);
        OneBlock(w, id, io, LayerRecords(RemovedWith(Delete(w, id, io).1)));
      }
    }
  }

  /** A report in its two parts: the references taken away, and the images with their layers. */
  datatype Told = Told(references: seq<Record>, images: seq<Record>)

  /** What is reported: the references taken away, each once, and then the images with their layers. */
  ghost predicate Reported(w: World, refs: map<Ref, ID>, after: map<Ref, ID>, ids: seq<ID>, io: Faults, told: Told) {
    Lists(told.references, UntaggedOf(refs, after)) && Blocks(w, ids, io, told.images)
  }

  /** The report `told` comes after the records there were. */
  ghost predicate Appended(records: seq<Record>, told: Told, out: seq<Record>) {
    out == records + told.references + told.images
  }

  lemma AppendedMore(records: seq<Record>, told: Told, mid: seq<Record>, more: Told, out: seq<Record>)
    requires Appended(records, told, mid) && Appended(mid, more, out) && more.references == []
    ensures Appended(records, Told(told.references, told.images + more.images), out)
  {
    var a, b, c := records + told.references, told.images, more.images;
    assert mid + more.references == mid;
    assert a + b + c == a + (b + c);
  }

  lemma AppendedAfter(first: seq<Record>, more: Told, out: seq<Record>)
    requires Appended(first, more, out)
    ensures out == (first + more.references) + more.images
  {
  }

  lemma UntaggedNone(refs: map<Ref, ID>)
    ensures Lists([], UntaggedOf(refs, refs))
  {
    assert UntaggedOf(refs, refs) == {};
  }

  lemma UntaggedAdd(refs: map<Ref, ID>, some: map<Ref, ID>, r: Ref, told: seq<Record>)
    requires Lists(told, UntaggedOf(refs, some)) && r in refs && r in some
    ensures Lists(told + [Untagged(r)], UntaggedOf(refs, some - {r}))
  {
    UntagOne(refs, some, r);
    ListsConcat(told, UntaggedOf(refs, some), [Untagged(r)], {Untagged(r)});
  }

  lemma UntaggedMore(refs: map<Ref, ID>, left: map<Ref, ID>, after: map<Ref, ID>, first: seq<Record>, more: seq<Record>)
    requires after.Keys <= left.Keys <= refs.Keys
    requires Lists(first, UntaggedOf(refs, left)) && Lists(more, UntaggedOf(left, after))
    ensures Lists(first + more, UntaggedOf(refs, after))
  {
    UntaggedTwice(refs, left, after);
    ListsConcat(first, UntaggedOf(refs, left), more, UntaggedOf(left, after));
  }

  /** References first, and then a deletion. */
  lemma ReportedAfter(w: World, refs: map<Ref, ID>, left: map<Ref, ID>, after: map<Ref, ID>, ids: seq<ID>, io: Faults,
                      first: seq<Record>, told: Told)
    requires after.Keys <= left.Keys <= refs.Keys
    requires Lists(first, UntaggedOf(refs, left)) && Reported(w, left, after, ids, io, told)
    ensures Reported(w, refs, after, ids, io, Told(first + told.references, told.images))
  {
    UntaggedMore(refs, left, after, first, told.references);
  }

  /** One image. */
  lemma OneBlock(w: World, id: ID, io: Faults, layers: seq<Record>)
    requires Lists(layers, GoneWith(w, id, io))
    ensures Blocks(w, [id], io, Block(id, layers))
  {
    BlocksCons(w, id, [], io, layers, []);
    assert [id] + [] == [id] && Block(id, layers) + [] == Block(id, layers);
  }

  /** The images above, once the references to the first are gone. */
  lemma ReportedMore(w: World, refs: map<Ref, ID>, after: map<Ref, ID>, id: ID, rest: seq<ID>, io: Faults,
                     told: Told, more: Told)
    requires Reported(w, refs, after, [id], io, told)
    requires Reported(AfterDelete(w, id, io), after, after, rest, io, more)
    ensures Reported(w, refs, after, [id] + rest, io, Told(told.references, told.images + more.images))
    ensures more.references == []
  {
    assert UntaggedOf(after, after) == {};
    ListsLength(more.references, {});
    var layers, none := BlocksSplit(w, [id], io, told.images);
    assert [id][1..] == [];
    assert none == [];
    BlocksCons(w, id, rest, io, layers, more.images);
    assert Block(id, layers) + none == Block(id, layers);
  }

  // ----- What a report says -----

  lemma AfterDeleteShrinks(w: World, id: ID, io: Faults)
    requires Held(w)
    ensures Held(AfterDelete(w, id, io))
    ensures AfterDelete(w, id, io).layers.core.layerMap.Keys <= w.layers.core.layerMap.Keys
  {
    HeldHandles(w);
    DeleteHeld(w, id, io);
    if id in w.images.images && w.images.images[id].layer.Some? {
      var _ := ReleaseRemoves(w.layers, w.images.images[id].layer.value, io);
    }
  }

  /** A layer is reported once if it left the map, and not at all if it did not. */
  ghost predicate LayersTold(before: map<string, Obj>, after: map<string, Obj>, records: seq<Record>) {
    forall c :: multiset(records)[DeletedLayer(c)] == if c in before && c !in after then 1 else 0
  }

  ghost predicate NoReferences(records: seq<Record>) {
    forall i :: 0 <= i < |records| ==> !records[i].Untagged?
  }

  lemma NoReferencesMore(id: ID, layers: seq<Record>, gone: set<Record>, rest: seq<Record>)
    requires Lists(layers, gone) && (forall x :: x in gone ==> x.DeletedLayer?) && NoReferences(rest)
    ensures NoReferences(Block(id, layers) + rest)
  {
    var records := Block(id, layers) + rest;
    forall i | 0 <= i < |records| ensures !records[i].Untagged? {
      assert 0 < i <= |layers| ==> records[i] == layers[i - 1] && layers[i - 1] in multiset(layers);
    }
  }

  lemma {:induction false} BlocksSay(w: World, ids: seq<ID>, io: Faults, records: seq<Record>)
    requires Held(w) && Blocks(w, ids, io, records)
    ensures var before, after := w.layers.core.layerMap, AfterAll(w, ids, io).layers.core.layerMap;
      after.Keys <= before.Keys && LayersTold(before, after, records) && NoReferences(records)
    decreases |ids|
  {
    if ids != [] {
      AfterDeleteShrinks(w, ids[0], io);
      var layers, rest := BlocksSplit(w, ids, io, records);
      BlocksSay(AfterDelete(w, ids[0], io), ids[1..], io, rest);
      BlockSays(w, ids[0], io, AfterAll(w, ids, io).layers.core.layerMap, layers, rest);
    }
  }

  lemma BlockSays(w: World, id: ID, io: Faults, after: map<string, Obj>, layers: seq<Record>, rest: seq<Record>)
    requires Lists(layers, GoneWith(w, id, io)) && NoReferences(rest)
    requires var before, mid := w.layers.core.layerMap, AfterDelete(w, id, io).layers.core.layerMap;
      after.Keys <= mid.Keys <= before.Keys && LayersTold(mid, after, rest)
    ensures LayersTold(w.layers.core.layerMap, after, Block(id, layers) + rest)
    ensures NoReferences(Block(id, layers) + rest)
  {
    LayersToldMore(w.layers.core.layerMap, AfterDelete(w, id, io).layers.core.layerMap, after, GoneWith(w, id, io), id,
                   layers, rest);
    NoReferencesMore(id, layers, GoneWith(w, id, io), rest);
  }

  lemma LayersToldMore(before: map<string, Obj>, mid: map<string, Obj>, after: map<string, Obj>, gone: set<Record>,
                       id: ID, block: seq<Record>, rest: seq<Record>)
    requires after.Keys <= mid.Keys <= before.Keys && Lists(block, gone) && LayersTold(mid, after, rest)
    requires forall c :: DeletedLayer(c) in gone <==> c in before && c !in mid
    ensures LayersTold(before, after, Block(id, block) + rest)
  {
    var records := Block(id, block) + rest;
    assert multiset(records) == multiset{Deleted(id)} + multiset(gone) + multiset(rest);
    forall c ensures multiset(records)[DeletedLayer(c)] == if c in before && c !in after then 1 else 0 {
      assert c in after.Keys ==> c in mid.Keys;
      assert c in mid.Keys ==> c in before.Keys;
    }
  }

  /** A reference is reported once if it was taken away, and not at all if it was not; references come before all
      else. */
  ghost predicate ReferencesTold(refs: map<Ref, ID>, after: map<Ref, ID>, records: seq<Record>) {
    && (forall r :: multiset(records)[Untagged(r)] == if r in refs && r !in after then 1 else 0)
    && (forall i, j :: 0 <= i < j < |records| && records[j].Untagged? ==> records[i].Untagged?)
  }

  /** A report names the deleted images, in their order. */
  lemma {:induction false} BlocksDelete(w: World, ids: seq<ID>, io: Faults, before: seq<Record>, records: seq<Record>)
    requires Blocks(w, ids, io, records)
    ensures DeletedImages(before + records) == DeletedImages(before) + ids
    decreases |ids|
  {
    if ids == [] {
      assert before + records == before;
    } else {
      var layers, rest := BlocksSplit(w, ids, io, records);
      OnlyLayers(layers, GoneWith(w, ids[0], io));
      var block := Block(ids[0], layers);
      DeletedBlock(before, ids[0], layers);
      BlocksDelete(AfterDelete(w, ids[0], io), ids[1..], io, before + block, rest);
      Regroup(before, block, rest);
      OneMore(DeletedImages(before), ids);
    }
  }

  lemma Regroup(before: seq<Record>, block: seq<Record>, rest: seq<Record>)
    ensures before + (block + rest) == before + block + rest
  {
  }

  lemma OneMore(before: seq<ID>, ids: seq<ID>)
    requires ids != []
    ensures before + [ids[0]] + ids[1..] == before + ids
  {
  }

  lemma DeletedBlock(before: seq<Record>, id: ID, layers: seq<Record>)
    requires forall i :: 0 <= i < |layers| ==> layers[i].DeletedLayer?
    ensures DeletedImages(before + Block(id, layers)) == DeletedImages(before) + [id]
  {
    DeletedImagesOne(before, id);
    DeletedImagesMore(before + [Deleted(id)], layers);
    Regroup(before, [Deleted(id)], layers);
  }

  lemma OnlyLayers(layers: seq<Record>, gone: set<Record>)
    requires Lists(layers, gone) && forall x :: x in gone ==> x.DeletedLayer?
    ensures forall i :: 0 <= i < |layers| ==> layers[i].DeletedLayer?
  {
    forall i | 0 <= i < |layers| ensures layers[i].DeletedLayer? {
      assert layers[i] in multiset(layers);
    }
  }

  lemma ReportDeletes(w: World, refs: map<Ref, ID>, after: map<Ref, ID>, ids: seq<ID>, io: Faults, told: Told)
    requires Reported(w, refs, after, ids, io, told)
    ensures DeletedImages(told.references + told.images) == ids
  {
    OnlyReferences(told.references, UntaggedOf(refs, after));
    BlocksDelete(w, ids, io, told.references, told.images);
    DeletedImagesMore([], told.references);
    assert [] + told.references == told.references;
  }

  /** What a report says of the stores before and after. */
  ghost predicate Tells(refs: map<Ref, ID>, after: map<Ref, ID>, w: World, v: World, records: seq<Record>) {
    && ReferencesTold(refs, after, records)
    && LayersTold(w.layers.core.layerMap, v.layers.core.layerMap, records)
  }

  lemma ReportTells(w: World, refs: map<Ref, ID>, after: map<Ref, ID>, ids: seq<ID>, io: Faults, told: Told)
    requires Held(w) && Reported(w, refs, after, ids, io, told)
    ensures Tells(refs, after, w, AfterAll(w, ids, io), told.references + told.images)
    ensures DeletedImages(told.references + told.images) == ids
  {
    ReportDeletes(w, refs, after, ids, io, told);
    BlocksSay(w, ids, io, told.images);
    OnlyReferences(told.references, UntaggedOf(refs, after));
    PartsTell(refs, after, w.layers.core.layerMap, AfterAll(w, ids, io).layers.core.layerMap, told);
  }

  lemma PartsTell(refs: map<Ref, ID>, after: map<Ref, ID>, before: map<string, Obj>, left: map<string, Obj>, told: Told)
    requires Lists(told.references, UntaggedOf(refs, after)) && LayersTold(before, left, told.images)
    requires forall i :: 0 <= i < |told.references| ==> told.references[i].Untagged?
    requires NoReferences(told.images)
    ensures var records := told.references + told.images;
      ReferencesTold(refs, after, records) && LayersTold(before, left, records)
  {
    var records, u := told.references + told.images, UntaggedOf(refs, after);
    assert multiset(records) == multiset(u) + multiset(told.images);
    forall r ensures multiset(records)[Untagged(r)] == if r in refs && r !in after then 1 else 0 {
      assert Untagged(r) !in told.images;
    }
    forall c ensures multiset(records)[DeletedLayer(c)] == if c in before && c !in left then 1 else 0 {
      assert DeletedLayer(c) !in u;
    }
  }

  lemma OnlyReferences(first: seq<Record>, u: set<Record>)
    requires Lists(first, u) && forall x :: x in u ==> x.Untagged?
    ensures forall i :: 0 <= i < |first| ==> first[i].Untagged?
  {
    forall i | 0 <= i < |first| ensures first[i].Untagged? {
      assert first[i] in multiset(first);
    }
  }
}
