/**
 `ImageDelete` and its helper, on the stores they change.
 */
module ImageDelete {
  import opened LayerState
  import opened ImageState
  import opened ImageWorld
  import opened ImageDeletion
  import opened DeletionFaults
  import opened DeletionRecords
  import ImageStore

  datatype Error = InConflict(conflict: Conflict) | InUse | ReferenceError | LayerError | NoSuchImage | UnknownImage

  /** Failures of the stores underneath: references that cannot be deleted, removals of layers that fail. */
  datatype StoreFaults = StoreFaults(refs: set<Ref>, layers: Faults)

  /** The images of a path that are recorded: all, but the last one if its layers could not be removed. */
  function Recorded(err: Option<Error>, path: seq<ID>): seq<ID> {
    if err == Some(LayerError) && path != [] then path[..|path| - 1] else path
  }

  lemma RecordedCons(err: Option<Error>, id: ID, rest: seq<ID>)
    requires err == Some(LayerError) ==> rest != []
    ensures [id] + Recorded(err, rest) == Recorded(err, [id] + rest)
  {
  }

  /** Where there is no reference to an image, none goes. */
  lemma NoneUntagged(refs: map<Ref, ID>, after: map<Ref, ID>, p: ID)
    requires OnlyUntags(refs, after, p) && (after == refs || RefsTo(refs, p) == {})
    ensures after == refs
  {
    forall r | r in refs ensures r in after {
      assert after == refs || r !in RefsTo(refs, p);
    }
  }

  /** References to an image that is gone do not matter to the path above it. */
  lemma {:induction false} ClimbsBefore(im: Images, refs: map<Ref, ID>, after: map<Ref, ID>, gone: ID,
                                        containers: seq<Container>,
                                        id: ID, force: bool, path: seq<ID>)
    requires Indexed(im) && gone !in im.images && OnlyUntags(refs, after, gone)
    requires Climbs(im, after, containers, id, force, path)
    ensures Climbs(im, refs, containers, id, force, path)
    decreases |path|
  {
    if |path| > 1 {
      ParentStays(im, id);
      var p := GetParent(im, id).value;
      RefsToOthers(refs, after, gone, p);
      ClimbsBefore(DeleteImage(im, id), refs, after, gone, containers, p, false, path[1..]);
    }
  }

  /** One image is deleted, and `rest` above it. */
  lemma JoinPath(im: Images, refs: map<Ref, ID>, after: map<Ref, ID>, containers: seq<Container>, id: ID, force: bool,
                 rest: seq<ID>)
    requires Indexed(im) && id in im.images && OnlyUntags(refs, after, id)
    requires Deletable(im, refs, containers, id, force)
    requires rest != [] ==> GetParent(im, id).Some?
    requires rest != [] ==> RefsTo(after, GetParent(im, id).value) == {}
    requires rest != [] ==> Climbs(DeleteImage(im, id), after, containers, GetParent(im, id).value, false, rest)
    ensures Climbs(im, refs, containers, id, force, [id] + rest)
    ensures DeleteAll(im, [id] + rest) == DeleteAll(DeleteImage(im, id), rest)
  {
    assert ([id] + rest)[1..] == rest;
    if rest != [] {
      var p := GetParent(im, id).value;
      ParentStays(im, id);
      RefsToOthers(refs, after, id, p);
      ClimbsBefore(DeleteImage(im, id), refs, after, id, containers, p, false, rest);
    }
  }

  lemma JoinExhausted(im: Images, n: Images, refs: map<Ref, ID>, after: map<Ref, ID>, containers: seq<Container>,
                      id: ID, rest: seq<ID>)
    requires Indexed(im) && id in im.images && Children(im, id) == {} && GetParent(im, id).Some?
    requires Climbs(DeleteImage(im, id), refs, containers, GetParent(im, id).value, false, rest)
    requires Exhausted(DeleteImage(im, id), n, after, containers, rest)
    requires rest == [] ==> !Deletable(n, after, containers, GetParent(im, id).value, false)
    ensures Exhausted(im, n, after, containers, [id] + rest)
  {
    ParentStays(im, id);
    var path := [id] + rest;
    if rest != [] {
      ClimbIsUpward(DeleteImage(im, id), refs, containers, GetParent(im, id).value, false, rest);
      var last := rest[|rest| - 1];
      assert UpwardAt(DeleteImage(im, id), refs, containers, false, rest, |rest| - 1);
      assert path[|path| - 1] == last;
    }
  }

  /** What an attempt to delete `id` does: the images of `path` go, and it is an upward path from `id`, as
      long as prune can make it; references go only with their image; a conflict stops everything, and
      is reported unless the attempt is quiet. */
  ghost predicate Attempt(im: Images, n: Images, refs: map<Ref, ID>, after: map<Ref, ID>, containers: seq<Container>,
                          id: ID, force: bool, prune: bool, quiet: bool, err: Option<Error>, path: seq<ID>)
  {
    var deletable := Deletable(im, refs, containers, id, force);
    && n == DeleteAll(im, path) && Climbs(im, refs, containers, id, force, path)
    && OnlyUntags(refs, after, id) && (path != [] ==> RefsTo(after, id) == {})
    && (!prune ==> |path| <= 1)
    && (prune && err.None? ==> Exhausted(im, n, after, containers, path))
    && (err.Some? && err.value.InConflict? <==> !quiet && !deletable)
    && (!deletable ==> path == [] && after == refs && (quiet ==> err.None?))
    && (deletable && err.None? ==> path != [])
    && (err == Some(UnknownImage) ==> path == [] && RefsTo(after, id) == {})
    && (err == Some(LayerError) ==> path != [])
    && err != Some(InUse) && err != Some(NoSuchImage) && (id in im.images ==> err != Some(UnknownImage))
  }

  lemma AttemptBlocked(im: Images, refs: map<Ref, ID>, containers: seq<Container>,
                       id: ID, force: bool, prune: bool, quiet: bool, err: Option<Error>)
    requires !Deletable(im, refs, containers, id, force)
    requires if quiet then err.None? else err.Some? && err.value.InConflict?
    ensures Attempt(im, im, refs, refs, containers, id, force, prune, quiet, err, [])
  {
  }

  /** The image may go, and either stays because of a failure or goes alone. */
  lemma AttemptOne(im: Images, refs: map<Ref, ID>, after: map<Ref, ID>, containers: seq<Container>,
                   id: ID, force: bool, prune: bool, quiet: bool, err: Option<Error>, deleted: bool)
    requires Indexed(im) && Deletable(im, refs, containers, id, force) && OnlyUntags(refs, after, id)
    requires deleted ==> id in im.images && RefsTo(after, id) == {}
    requires err.None? ==> deleted && (prune ==> GetParent(im, id).None?)
    requires err.Some? ==>
      (deleted <==> err.value.LayerError?) && !(err.value.InConflict? || err.value.InUse? || err.value.NoSuchImage?)
    requires err == Some(UnknownImage) ==> id !in im.images && RefsTo(after, id) == {}
    ensures Attempt(im, if deleted then DeleteImage(im, id) else im, refs, after, containers, id, force, prune, quiet,
                    err,
                    if deleted then [id] else [])
  {
    if deleted {
      JoinPath(im, refs, after, containers, id, force, []);
      assert [id] + [] == [id];
    }
  }

  lemma AttemptNoImage(w: World, refs: map<Ref, ID>, containers: seq<Container>, id: ID, force: bool, prune: bool,
                       faults: StoreFaults, err: Option<Error>)
    requires id in w.images.images ==> err == Some(ReferenceError)
    ensures err != Some(ReferenceError) ==> Carried(w, w, refs, containers, id, force, prune, faults.layers, false, [])
  {
    if id !in w.images.images {
      CarriedNothing(w, refs, containers, id, force, prune, faults.layers);
    }
  }

  /** The image goes, and the attempt continues with its parent. */
  lemma AttemptMore(im: Images, n: Images, refs: map<Ref, ID>, left: map<Ref, ID>, after: map<Ref, ID>,
                    containers: seq<Container>,
                    id: ID, force: bool, quiet: bool, err: Option<Error>, rest: seq<ID>)
    requires Indexed(im) && Deletable(im, refs, containers, id, force) && OnlyUntags(refs, left, id)
    requires id in im.images && RefsTo(left, id) == {} && GetParent(im, id).Some?
    requires Attempt(DeleteImage(im, id), n, left, after, containers, GetParent(im, id).value, false, true, true, err,
                     rest)
    ensures Attempt(im, n, refs, after, containers, id, force, true, quiet, err, [id] + rest)
  {
    JoinPath(im, refs, left, containers, id, force, rest);
    ParentStays(im, id);
    var p := GetParent(im, id).value;
    if err.None? {
      JoinExhausted(im, n, left, after, containers, id, rest);
    }
    UntagsTwice(refs, left, after, id, p);
  }

  lemma UntagsTwice(refs: map<Ref, ID>, left: map<Ref, ID>, after: map<Ref, ID>, id: ID, p: ID)
    requires OnlyUntags(refs, left, id) && RefsTo(left, id) == {}
    requires after == left || (OnlyUntags(left, after, p) && RefsTo(left, p) == {})
    ensures OnlyUntags(refs, after, id) && RefsTo(after, id) == {}
  {
    forall r | r in refs && refs[r] != id ensures r in after {
      assert r in left;
      assert after == left || r !in RefsTo(left, p);
    }
    forall r | r in after ensures after[r] != id {
      assert r !in RefsTo(left, id);
    }
  }

  /** What a call of `ImageDelete` does to the stores, in terms of the state before: the images that go
      form an upward path from the target, with prune as far as it can go, nothing but them and references
      to the target goes, and no survivor is orphaned. */
  ghost predicate Outcome(im: Images, n: Images, refs: map<Ref, ID>, after: map<Ref, ID>, containers: seq<Container>,
                          id: ID, force: bool, prune: bool, err: Option<Error>, path: seq<ID>)
  {
    && (path != [] ==> path[0] == id && RefsTo(after, id) == {})
    && Upward(im, refs, containers, force, path) && OnlyPathGone(im, n, path) && OnlyUntags(refs, after, id)
    && (!prune ==> |path| <= 1)
    && (prune && err.None? ==> Exhausted(im, n, after, containers, path))
  }

  lemma NothingHappens(im: Images, refs: map<Ref, ID>, after: map<Ref, ID>, containers: seq<Container>,
                       id: ID, force: bool, prune: bool, err: Option<Error>)
    requires OnlyUntags(refs, after, id)
    ensures Outcome(im, im, refs, after, containers, id, force, prune, err, [])
  {
  }

  lemma UpwardBefore(im: Images, refs: map<Ref, ID>, left: map<Ref, ID>, containers: seq<Container>,
                     id: ID, force: bool, path: seq<ID>, i: nat)
    requires OnlyUntags(refs, left, id) && i < |path| && path[0] == id && UpwardAt(im, left, containers, force, path, i)
    ensures UpwardAt(im, refs, containers, force, path, i)
  {
    if i > 0 {
      assert path[..i][0] == id;
      RefsToOthers(refs, left, id, path[i]);
    }
  }

  lemma AttemptOutcome(im: Images, n: Images, refs: map<Ref, ID>, left: map<Ref, ID>, after: map<Ref, ID>,
                       containers: seq<Container>, id: ID, force: bool, prune: bool, quiet: bool,
                       err: Option<Error>, path: seq<ID>)
    requires Indexed(im) && OnlyUntags(refs, left, id)
    requires Attempt(im, n, left, after, containers, id, force, prune, quiet, err, path)
    ensures Outcome(im, n, refs, after, containers, id, force, prune, err, path)
  {
    ClimbDeletes(im, left, containers, id, force, path);
    ClimbIsUpward(im, left, containers, id, force, path);
    forall i | 0 <= i < |path| ensures UpwardAt(im, refs, containers, force, path, i) {
      UpwardBefore(im, refs, left, containers, id, force, path, i);
    }
    UntagsFurther(refs, left, after, id);
  }

  lemma UntagsFurther(refs: map<Ref, ID>, left: map<Ref, ID>, after: map<Ref, ID>, id: ID)
    requires OnlyUntags(refs, left, id) && OnlyUntags(left, after, id)
    ensures OnlyUntags(refs, after, id)
  {
  }

  /** The references before the deletion proper, for an image given by its ID: its only reference goes. */
  function Ready(refs: map<Ref, ID>, id: ID): map<Ref, ID> {
    if |RefsTo(refs, id)| == 1 then refs - RefsTo(refs, id) else refs
  }

  /** The same for an image given by a reference: that goes, and with the last tag the digests left over. */
  function Left(refs: map<Ref, ID>, r: Ref, id: ID): map<Ref, ID> {
    if !r.canonical && (forall q :: q in RefsTo(refs - {r}, id) ==> q.canonical) then refs - RefsTo(refs, id) - {r}
    else refs - {r}
  }

  /** By reference: the reference goes, and another one exactly if it is a digest of the image and the last tag went. */
  lemma LeftTells(refs: map<Ref, ID>, r: Ref, q: Ref)
    requires r in refs && q in refs
    ensures q !in Left(refs, r, refs[r]) <==>
      || q == r
      || (refs[q] == refs[r] && !r.canonical && forall x :: x in refs && refs[x] == refs[r] && x != r ==> x.canonical)
  {
    assert forall x :: x in RefsTo(refs - {r}, refs[r]) <==> x in refs && refs[x] == refs[r] && x != r;
  }

  /** By ID: a reference goes exactly if it is the only one to the image. */
  lemma ReadyTells(refs: map<Ref, ID>, id: ID, q: Ref)
    requires q in refs
    ensures q !in Ready(refs, id) <==> refs[q] == id && forall x :: x in refs && refs[x] == id ==> x == q
  {
    if |RefsTo(refs, id)| == 1 && q in RefsTo(refs, id) {
      LastTag(refs, id, q);
      forall x | x in refs && refs[x] == id ensures x == q {
        assert x != q ==> x in RefsTo(refs - {q}, id);
      }
    }
    if refs[q] == id && forall x :: x in refs && refs[x] == id ==> x == q {
      assert RefsTo(refs, id) == {q};
    }
  }

  lemma AllUntagged(refs: map<Ref, ID>, some: map<Ref, ID>, after: map<Ref, ID>, r: Ref, id: ID)
    requires r in refs && refs[r] == id && some == refs - {r} && OnlyUntags(some, after, id) && RefsTo(after, id) == {}
    ensures after == refs - RefsTo(refs, id) - {r}
  {
    var none := refs - RefsTo(refs, id) - {r};
    forall q ensures q in after <==> q in none {
      assert q in after ==> q !in RefsTo(after, id);
    }
  }

  /** An image without its only reference: what the first check finds is all there is. */
  lemma LastTag(refs: map<Ref, ID>, id: ID, r: Ref)
    requires r in RefsTo(refs, id) && |RefsTo(refs, id)| == 1
    ensures Ready(refs, id) == refs - {r} && RefsTo(refs - {r}, id) == {} && OnlyUntags(refs, refs - {r}, id)
  {
    assert |RefsTo(refs, id) - {r}| == 0;
    assert RefsTo(refs, id) - {r} == {};
    assert RefsTo(refs, id) == {r};
  }

  /** All that `imageDeleteHelper` does and reports, for an image and its ancestors. */
  ghost predicate Helped(w: World, v: World, refs: map<Ref, ID>, after: map<Ref, ID>, containers: seq<Container>,
                         id: ID, force: bool, prune: bool, quiet: bool, faults: StoreFaults, err: Option<Error>,
                         path: seq<ID>, told: Told)
  {
    && Attempt(w.images, v.images, refs, after, containers, id, force, prune, quiet, err, path)
    && (if err == Some(ReferenceError) then path == [] && RefsTo(refs, id) * faults.refs != {}
        else Carried(w, v, refs, containers, id, force, prune, faults.layers, err == Some(LayerError), path))
    && (err.Some? && err.value.InConflict? ==>
          IsConflict(w.images, refs, containers, id, force, err.value.conflict))
    && Reported(w, refs, after, Recorded(err, path), faults.layers, told)
  }

  /** A conflict stops everything. */
  lemma HelperBlocked(w: World, refs: map<Ref, ID>, containers: seq<Container>, id: ID, force: bool, prune: bool,
                      quiet: bool, faults: StoreFaults, c: Conflict, err: Option<Error>)
    requires CheckConflict(w.images, refs, containers, id, Mask(force)) == Some(c)
    requires err == if quiet && (!IsDangling(w.images, refs, id) || c.Used()) then None else Some(InConflict(c))
    ensures Helped(w, w, refs, refs, containers, id, force, prune, quiet, faults, err, [], Told([], []))
  {
    ConflictIffNotDeletable(w.images, refs, containers, id, force);
    ConflictIsFirst(w.images, refs, containers, id, force, c);
    DanglingConflictIsUse(w.images, refs, containers, id, Mask(force));
    AttemptBlocked(w.images, refs, containers, id, force, prune, quiet, err);
    CarriedNothing(w, refs, containers, id, force, prune, faults.layers);
    UntaggedNone(refs);
  }

  /** The attempt ends with the image, which goes or stays. */
  lemma HelperOne(w: World, v: World, refs: map<Ref, ID>, after: map<Ref, ID>, containers: seq<Container>, id: ID,
                  force: bool, prune: bool, quiet: bool, faults: StoreFaults, err: Option<Error>, deleted: bool,
                  told: Told)
    requires Indexed(w.images) && Deletable(w.images, refs, containers, id, force) && OnlyUntags(refs, after, id)
    requires deleted ==> id in w.images.images && RefsTo(after, id) == {}
    requires err.None? ==> deleted && (prune ==> GetParent(w.images, id).None?)
    requires err.Some? ==>
      (deleted <==> err.value.LayerError?) && !(err.value.InConflict? || err.value.InUse? || err.value.NoSuchImage?)
    requires err == Some(UnknownImage) ==> id !in w.images.images && RefsTo(after, id) == {}
    requires err == Some(ReferenceError) <==> RefsTo(refs, id) * faults.refs != {}
    requires err == Some(LayerError) <==> deleted && LayersFail(w, id, faults.layers)
    requires deleted <==> id in w.images.images && err != Some(ReferenceError)
    requires v == if deleted then AfterDelete(w, id, faults.layers) else w
    requires deleted ==> v.images == DeleteImage(w.images, id)
    requires Reported(w, refs, after, if err.None? then [id] else [], faults.layers, told)
    ensures Helped(w, v, refs, after, containers, id, force, prune, quiet, faults, err, if deleted then [id] else [],
                   told)
  {
    AttemptOne(w.images, refs, after, containers, id, force, prune, quiet, err, deleted);
    if deleted {
      CarriedOne(w, refs, containers, id, force, prune, faults.layers);
    } else {
      AttemptNoImage(w, refs, containers, id, force, prune, faults, err);
    }
  }

  /** One image goes, with its references, and then its ancestors. */
  lemma HelperMore(w: World, v: World, refs: map<Ref, ID>, left: map<Ref, ID>, after: map<Ref, ID>,
                   containers: seq<Container>, id: ID, force: bool, quiet: bool, faults: StoreFaults,
                   err: Option<Error>, rest: seq<ID>, told: Told, more: Told)
    requires Indexed(w.images) && Deletable(w.images, refs, containers, id, force) && OnlyUntags(refs, left, id)
    requires id in w.images.images && RefsTo(left, id) == {} && GetParent(w.images, id).Some?
    requires !LayersFail(w, id, faults.layers)
    requires AfterDelete(w, id, faults.layers).images == DeleteImage(w.images, id)
    requires Reported(w, refs, left, [id], faults.layers, told)
    requires Helped(AfterDelete(w, id, faults.layers), v, left, after, containers, GetParent(w.images, id).value, false,
                    true, true, faults, err, rest, more)
    ensures Helped(w, v, refs, after, containers, id, force, true, quiet, faults, err, [id] + rest,
                   Told(told.references, told.images + more.images))
    ensures more.references == []
  {
    var p := GetParent(w.images, id).value;
    NoneUntagged(left, after, p);
    AttemptMore(w.images, v.images, refs, left, after, containers, id, force, quiet, err, rest);
    NoReferenceFault(left, p, faults.refs);
    CarriedMore(w, v, refs, left, containers, id, force, faults.layers, err == Some(LayerError), rest);
    RecordedCons(err, id, rest);
    ReportedMore(w, refs, after, id, Recorded(err, rest), faults.layers, told, more);
  }

  lemma NoReferenceFault(refs: map<Ref, ID>, p: ID, bad: set<Ref>)
    ensures RefsTo(refs, p) == {} ==> RefsTo(refs, p) * bad == {}
  {
  }

  /** A deletion after the references that were taken away before it. */
  lemma Joined(w: World, refs: map<Ref, ID>, left: map<Ref, ID>, after: map<Ref, ID>, id: ID, ids: seq<ID>, io: Faults,
               first: seq<Record>, more: Told, records: seq<Record>)
    requires Held(w) && OnlyUntags(refs, left, id) && OnlyUntags(left, after, id)
    requires Lists(first, UntaggedOf(refs, left)) && Reported(w, left, after, ids, io, more)
    requires Appended(first, more, records)
    ensures Reported(w, refs, after, ids, io, Told(first + more.references, more.images))
    ensures records == (first + more.references) + more.images
    ensures Tells(refs, after, w, AfterAll(w, ids, io), records) && DeletedImages(records) == ids
  {
    assert forall r :: r in after ==> r in left;
    assert forall r :: r in left ==> r in refs;
    ReportedAfter(w, refs, left, after, ids, io, first, more);
    AppendedAfter(first, more, records);
    ReportTells(w, refs, after, ids, io, Told(first + more.references, more.images));
  }

  /** All that `ImageDelete` does and reports, once the first references are gone. */
  lemma AfterHelper(w: World, v: World, refs: map<Ref, ID>, left: map<Ref, ID>, after: map<Ref, ID>,
                    containers: seq<Container>, id: ID, force: bool, prune: bool, quiet: bool, faults: StoreFaults,
                    err: Option<Error>, path: seq<ID>, first: seq<Record>, more: Told, records: seq<Record>)
    requires Held(w) && Indexed(w.images) && OnlyUntags(refs, left, id) && Lists(first, UntaggedOf(refs, left))
    requires Helped(w, v, left, after, containers, id, force, prune, quiet, faults, err, path, more)
    requires Appended(first, more, records)
    ensures Outcome(w.images, v.images, refs, after, containers, id, force, prune, err, path)
    ensures Reported(w, refs, after, Recorded(err, path), faults.layers, Told(first + more.references, more.images))
    ensures records == (first + more.references) + more.images && DeletedImages(records) == Recorded(err, path)
    ensures ReferencesTold(refs, after, records)
    ensures err.None? ==> LayersTold(w.layers.core.layerMap, v.layers.core.layerMap, records)
    ensures err.Some? && err.value.InConflict? ==> path == [] && after == left && v == w
  {
    AttemptOutcome(w.images, v.images, refs, left, after, containers, id, force, prune, quiet, err, path);
    Joined(w, refs, left, after, id, Recorded(err, path), faults.layers, first, more, records);
  }

  /** References alone. */
  lemma OnlyReferencesTold(w: World, refs: map<Ref, ID>, after: map<Ref, ID>, io: Faults, records: seq<Record>)
    requires Held(w) && Lists(records, UntaggedOf(refs, after))
    ensures Reported(w, refs, after, [], io, Told(records, [])) && records == records + []
    ensures Tells(refs, after, w, w, records) && DeletedImages(records) == []
  {
    assert records + [] == records;
    ReportTells(w, refs, after, [], io, Told(records, []));
  }

  /** All that `ImageDelete` does and reports for an image that was found by its ID. */
  ghost predicate ByID(w: World, v: World, refs: map<Ref, ID>, after: map<Ref, ID>, containers: seq<Container>, id: ID,
                       force: bool, prune: bool, faults: StoreFaults, err: Option<Error>, path: seq<ID>, told: Told,
                       records: seq<Record>)
  {
    var conflict := err.Some? && err.value.InConflict?;
    && err != Some(NoSuchImage)
    && Outcome(w.images, v.images, refs, after, containers, id, force, prune, err, path)
    && (conflict ==> path == [] && after == refs && v == w)
    && (conflict <==> !Deletable(w.images, Ready(refs, id), containers, id, force))
    && (conflict ==> IsConflict(w.images, Ready(refs, id), containers, id, force, err.value.conflict))
    && (err != Some(ReferenceError) ==>
          Carried(w, v, Ready(refs, id), containers, id, force, prune, faults.layers, err == Some(LayerError), path))
    && (err == Some(UnknownImage) ==> id !in w.images.images && RefsTo(after, id) == {})
    && (err.None? ==> path != [])
    && DeletedImages(records) == Recorded(err, path) && records == told.references + told.images
    && Reported(w, refs, after, Recorded(err, path), faults.layers, told)
    && ReferencesTold(refs, after, records)
    && (err.None? ==> LayersTold(w.layers.core.layerMap, v.layers.core.layerMap, records))
  }

  /** The deletion ends before the image is looked at. */
  lemma ByIDEnds(w: World, refs: map<Ref, ID>, containers: seq<Container>, id: ID, force: bool, prune: bool,
                 faults: StoreFaults, err: Error, records: seq<Record>)
    requires Held(w) && Lists(records, UntaggedOf(refs, refs)) && (err.InConflict? || err.ReferenceError?)
    requires err.InConflict? <==> !Deletable(w.images, Ready(refs, id), containers, id, force)
    requires err.InConflict? ==> IsConflict(w.images, Ready(refs, id), containers, id, force, err.conflict)
    ensures ByID(w, w, refs, refs, containers, id, force, prune, faults, Some(err), [], Told(records, []), records)
  {
    NothingHappens(w.images, refs, refs, containers, id, force, prune, Some(err));
    OnlyReferencesTold(w, refs, refs, faults.layers, records);
    if err.InConflict? {
      CarriedNothing(w, Ready(refs, id), containers, id, force, prune, faults.layers);
    }
  }

  lemma ByIDHelped(w: World, v: World, refs: map<Ref, ID>, after: map<Ref, ID>, containers: seq<Container>, id: ID,
                   force: bool, prune: bool, faults: StoreFaults, err: Option<Error>, path: seq<ID>,
                   first: seq<Record>, more: Told, records: seq<Record>)
    requires Held(w) && Indexed(w.images) && Lists(first, UntaggedOf(refs, Ready(refs, id)))
    requires |RefsTo(refs, id)| == 1 ==> Deletable(w.images, Ready(refs, id), containers, id, force)
    requires Helped(w, v, Ready(refs, id), after, containers, id, force, prune, false, faults, err, path, more)
    requires Appended(first, more, records)
    ensures ByID(w, v, refs, after, containers, id, force, prune, faults, err, path,
                 Told(first + more.references, more.images), records)
  {
    AfterHelper(w, v, refs, Ready(refs, id), after, containers, id, force, prune, false, faults, err, path, first, more,
                records);
  }

  class Daemon {
    const st: ImageStore.Store
    const containers: seq<Container>
    var refs: map<Ref, ID>

    constructor (st: ImageStore.Store, containers: seq<Container>, refs: map<Ref, ID>)
      ensures this.st == st && this.containers == containers && this.refs == refs
    {
      this.st, this.containers, this.refs := st, containers, refs;
    }

    /** Images hold their layers, and stored parents have their children indexed; this is so in every state of
        every run, moves and races included. */
    ghost predicate Valid()
      reads this, st, st.ls
    {
      Held(st.Both()) && Indexed(st.View())
    }

    /** `removeAllReferencesToImageID`; the references are met in any order. */
    method RemoveAllReferences(id: ID, records: seq<Record>, faults: StoreFaults)
      returns (out: seq<Record>, err: Option<Error>, ghost told: seq<Record>)
      modifies this`refs
      ensures OnlyUntags(old(refs), refs, id)
      ensures err.None? || err == Some(ReferenceError)
      ensures err.None? ==> RefsTo(refs, id) == {}
      ensures err.Some? <==> old(RefsTo(refs, id)) * faults.refs != {}
      ensures out == records + told && Lists(told, UntaggedOf(old(refs), refs))
    {
      out, err, told := records, None, [];
      UntaggedNone(refs);
      var todo := RefsTo(refs, id);
      while todo != {}
        invariant OnlyUntags(old(refs), refs, id) && RefsTo(refs, id) == todo
        invariant old(RefsTo(refs, id)) * faults.refs == todo * faults.refs
        invariant out == records + told && Lists(told, UntaggedOf(old(refs), refs))
      {
        var r :| r in todo;
        if r in faults.refs {
          assert r in todo * faults.refs;
          return out, Some(ReferenceError), told;
        }
        UntaggedAdd(old(refs), refs, r, told);
        told := told + [Untagged(r)];
        refs := refs - {r};
        todo := todo - {r};
        out := out + [Untagged(r)];
      }
    }

    /** The part of `imageDeleteHelper` that deletes the image and records it with the layers that go. */
    method DropImage(id: ID, records: seq<Record>, faults: StoreFaults)
      returns (out: seq<Record>, err: Option<Error>, ghost told: seq<Record>)
      requires Valid()
      modifies st`images, st`content, st`parents, st.ls`core, st.ls`disk, st.ls`panicked
      ensures Valid()
      ensures err == if id !in old(st.images) then Some(UnknownImage)
                     else if LayersFail(old(st.Both()), id, faults.layers) then Some(LayerError) else None
      ensures if err == Some(UnknownImage) then st.Both() == old(st.Both())
              else
                && st.View() == DeleteImage(old(st.View()), id)
                && st.Both() == AfterDelete(old(st.Both()), id, faults.layers)
      ensures out == records + told
      ensures Blocks(old(st.Both()), if err.None? then [id] else [], faults.layers, told)
    {
      told := [];
      HeldHandles(st.Both());
      DeleteTold(st.Both(), id, faults.layers);
      var r := st.Delete(id, faults.layers);
      if r.Unrecognized? {
        return records, Some(UnknownImage), [];
      }
      if Stuck(r) {
        return records, Some(LayerError), [];
      }
      out, err := records + [Deleted(id)] + LayerRecords(RemovedWith(r)), None;
      told := Block(id, LayerRecords(RemovedWith(r)));
      Regroup(records, [Deleted(id)], LayerRecords(RemovedWith(r)));
    }

    /** The references to an image go, then the image itself. */
    method DeleteOne(id: ID, records: seq<Record>, faults: StoreFaults)
      returns (out: seq<Record>, err: Option<Error>, ghost deleted: bool, ghost told: Told)
      requires Valid()
      modifies this`refs, st`images, st`content, st`parents, st.ls`core, st.ls`disk, st.ls`panicked
      ensures Valid() && OnlyUntags(old(refs), refs, id)
      ensures if deleted then
                && id in old(st.images) && RefsTo(refs, id) == {}
                && st.View() == DeleteImage(old(st.View()), id)
                && st.Both() == AfterDelete(old(st.Both()), id, faults.layers)
              else st.Both() == old(st.Both())
      ensures deleted <==> id in old(st.images) && old(RefsTo(refs, id)) * faults.refs == {}
      ensures err == Some(LayerError) <==> deleted && LayersFail(old(st.Both()), id, faults.layers)
      ensures err == Some(ReferenceError) <==> old(RefsTo(refs, id)) * faults.refs != {}
      ensures err.None? ==> deleted
      ensures err.Some? ==>
        (deleted <==> err.value.LayerError?) && !(err.value.InConflict? || err.value.InUse? || err.value.NoSuchImage?)
      ensures err == Some(UnknownImage) ==> id !in old(st.images) && RefsTo(refs, id) == {}
      ensures Appended(records, told, out)
      ensures Reported(old(st.Both()), old(refs), refs, if err.None? then [id] else [], faults.layers, told)
    {
      ghost var first, images;
      out, err, first := RemoveAllReferences(id, records, faults);
      told := Told(first, []);
      if err.Some? {
        deleted := false;
        return;
      }
      out, err, images := DropImage(id, out, faults);
      deleted := err != Some(UnknownImage);
      told := Told(first, images);
    }

    /** `imageDeleteHelper`.  `path` lists the images that go, from the one asked for upwards. */
    method DeleteHelper(id: ID, records: seq<Record>, force: bool, prune: bool, quiet: bool, faults: StoreFaults)
      returns (out: seq<Record>, err: Option<Error>, ghost path: seq<ID>, ghost told: Told)
      requires Valid()
      modifies this`refs, st`images, st`content, st`parents, st.ls`core, st.ls`disk, st.ls`panicked
      ensures Valid()
      ensures Helped(old(st.Both()), st.Both(), old(refs), refs, containers, id, force, prune, quiet, faults, err, path,
                     told)
      ensures Appended(records, told, out)
      decreases |st.images|
    {
      ghost var w, tags := st.Both(), refs;
      out, err, path, told := records, None, [], Told([], []);
      var conflict := CheckConflict(Images(st.images, st.content, st.parents), refs, containers, id, Mask(force));
      ConflictIffNotDeletable(w.images, refs, containers, id, force);
      if conflict.Some? {
        if !(quiet && (!IsDangling(Images(st.images, st.content, st.parents), refs, id) || conflict.value.Used())) {
          err := Some(InConflict(conflict.value));
        }
        HelperBlocked(w, refs, containers, id, force, prune, quiet, faults, conflict.value, err);
        return;
      }
      var parent := GetParent(Images(st.images, st.content, st.parents), id);
      ghost var deleted;
      out, err, deleted, told := DeleteOne(id, out, faults);
      if err.Some? || !prune || parent.None? {
        path := if deleted then [id] else [];
        HelperOne(w, st.Both(), tags, refs, containers, id, force, prune, quiet, faults, err, deleted, told);
        return;
      }
      ghost var left, rest, more, mid := refs, [], told, out;
      FewerImages(w.images, id);
      out, err, rest, more := DeleteHelper(parent.value, out, false, true, true, faults);
      HelperMore(w, st.Both(), tags, left, refs, containers, id, force, quiet, faults, err, rest, told, more);
      AppendedMore(records, told, mid, more, out);
      path := [id] + rest;
      told := Told(told.references, told.images + more.images);
    }

    /** One reference to an image goes. */
    method RemoveImageRef(r: Ref, records: seq<Record>, faults: StoreFaults)
      returns (out: seq<Record>, err: Option<Error>)
      modifies this`refs
      ensures if err.None? then refs == old(refs) - {r} else refs == old(refs)
      ensures err == if r in faults.refs then Some(ReferenceError) else None
      ensures out == records + if err.None? then [Untagged(r)] else []
    {
      if r in faults.refs {
        return records, Some(ReferenceError);
      }
      refs := refs - {r};
      return records + [Untagged(r)], None;
    }

    /** The part of `ImageDelete` that takes away the reference it was given, and with the last tag the
        digest references left over. */
    method Untag(r: Ref, id: ID, force: bool, faults: StoreFaults) returns (records: seq<Record>, err: Option<Error>)
      requires r in refs && refs[r] == id
      modifies this`refs
      ensures OnlyUntags(old(refs), refs, id)
      ensures err == Some(InUse) ==> refs == old(refs)
      ensures err == Some(InUse) <==>
        !force && old(|RefsTo(refs, id)|) <= 1 && (Uses(containers, id, true) || Uses(containers, id, false))
      ensures err.None? || err == Some(InUse) || err == Some(ReferenceError)
      ensures err == Some(ReferenceError) ==> old(RefsTo(refs, id)) * faults.refs != {}
      ensures err.None? ==> refs == Left(old(refs), r, id)
      ensures Lists(records, UntaggedOf(old(refs), refs))
    {
      records, err := [], None;
      UntaggedNone(refs);
      ghost var tags := refs;
      if !(force || |RefsTo(refs, id)| > 1) {
        if Uses(containers, id, true) || Uses(containers, id, false) {
          return records, Some(InUse);
        }
      }
      assert r in RefsTo(tags, id) && RefsTo(tags - {r}, id) <= RefsTo(tags, id);
      records, err := RemoveImageRef(r, records, faults);
      if err.Some? {
        assert r in RefsTo(tags, id) * faults.refs;
        return;
      }
      UntaggedAdd(tags, tags, r, []);
      if !r.canonical && (forall q :: q in RefsTo(refs, id) ==> q.canonical) {
        ghost var some, first, more := refs, records, [];
        records, err, more := RemoveAllReferences(id, records, faults);
        UntaggedMore(tags, some, refs, first, more);
        if err.Some? {
          assert RefsTo(some, id) * faults.refs <= RefsTo(tags, id) * faults.refs;
          return;
        }
        AllUntagged(tags, some, refs, r, id);
      }
    }

    /** `ImageDelete` of an image given by a repository reference. */
    method DeleteByReference(r: Ref, force: bool, prune: bool, faults: StoreFaults)
      returns (records: seq<Record>, err: Option<Error>, ghost path: seq<ID>, ghost told: Told)
      requires Valid()
      modifies this`refs, st`images, st`content, st`parents, st.ls`core, st.ls`disk, st.ls`panicked
      ensures Valid()
      ensures r !in old(refs) || err == Some(InUse) ==> path == [] && refs == old(refs) && st.Both() == old(st.Both())
      ensures r in old(refs) ==>
        Outcome(old(st.View()), st.View(), old(refs), refs, containers, old(refs)[r], force, prune, err, path)
      ensures r in old(refs) && err != Some(InUse) && err != Some(ReferenceError) ==>
        var id := old(refs)[r];
        var left := Left(old(refs), r, id);
        if RefsTo(left, id) != {} then path == [] && refs == left && err.None? && st.Both() == old(st.Both())
        else Carried(old(st.Both()), st.Both(), left, containers, id, force, prune, faults.layers,
                     err == Some(LayerError), path)
      ensures err == Some(NoSuchImage) <==> r !in old(refs)
      ensures err == Some(InUse) <==>
        && r in old(refs) && !force && |RefsTo(old(refs), old(refs)[r])| <= 1
        && (Uses(containers, old(refs)[r], true) || Uses(containers, old(refs)[r], false))
      ensures err == Some(ReferenceError) ==> r in old(refs) && RefsTo(old(refs), old(refs)[r]) * faults.refs != {}
      ensures !(err.Some? && err.value.InConflict?)
      ensures err.None? ==> r in old(refs) && r !in refs
      ensures DeletedImages(records) == Recorded(err, path)
      ensures records == told.references + told.images
      ensures Reported(old(st.Both()), old(refs), refs, Recorded(err, path), faults.layers, told)
      ensures ReferencesTold(old(refs), refs, records)
      ensures err.None? ==> LayersTold(old(st.ls.core).layerMap, st.ls.core.layerMap, records)
    {
      records, path, told := [], [], Told([], []);
      UntaggedNone(refs);
      ghost var w, im, tags := st.Both(), st.View(), refs;
      OnlyReferencesTold(w, tags, refs, faults.layers, []);
      if r !in refs {
        return records, Some(NoSuchImage), [], told;
      }
      var id := refs[r];
      records, err := Untag(r, id, force, faults);
      NothingHappens(im, tags, refs, containers, id, force, prune, err);
      told := Told(records, []);
      OnlyReferencesTold(w, tags, refs, faults.layers, records);
      if err.Some? || RefsTo(refs, id) != {} {
        return;
      }
      ghost var left, more := refs, told;
      records, err, path, more := DeleteHelper(id, records, force, prune, true, faults);
      AfterHelper(w, st.Both(), tags, left, refs, containers, id, force, prune, true, faults, err, path,
                  told.references, more, records);
      told := Told(told.references + more.references, more.images);
    }

    /** The part of `ImageDelete` that takes away the only reference to an image given by its ID. */
    method UntagOnly(id: ID, force: bool, faults: StoreFaults) returns (records: seq<Record>, err: Option<Error>)
      modifies this`refs
      ensures OnlyUntags(old(refs), refs, id)
      ensures err.None? || err.value.InConflict? || err == Some(ReferenceError)
      ensures err.Some? && err.value.InConflict? <==>
        old(|RefsTo(refs, id)|) == 1 && !Deletable(st.View(), Ready(old(refs), id), containers, id, force)
      ensures err.Some? && err.value.InConflict? ==>
        IsConflict(st.View(), Ready(old(refs), id), containers, id, force, err.value.conflict)
      ensures err == Some(ReferenceError) ==> old(|RefsTo(refs, id)|) == 1 && old(RefsTo(refs, id)) * faults.refs != {}
      ensures refs == if err.None? then Ready(old(refs), id) else old(refs)
      ensures Lists(records, UntaggedOf(old(refs), refs))
    {
      records, err := [], None;
      UntaggedNone(refs);
      var repoRefs := RefsTo(refs, id);
      if |repoRefs| == 1 {
        var mask := HardConflicts + if force then {} else {StoppedContainer};
        var conflict := CheckConflict(Images(st.images, st.content, st.parents), refs, containers, id, mask);
        var r :| r in repoRefs;
        LastTag(refs, id, r);
        UntaggedAdd(refs, refs, r, []);
        if conflict.Some? {
          return records, Some(InConflict(conflict.value));
        }
        assert r in faults.refs ==> r in RefsTo(refs, id) * faults.refs;
        records, err := RemoveImageRef(r, records, faults);
      }
    }

    /** Whether an ID names an image: a full one if the configuration is there, the beginning of one if the
        image is stored. */
    predicate Found(id: ID, byPrefix: bool)
      reads this, st
    {
      if byPrefix then id in st.images else ImageStore.Readable(st.ls.digest, st.parse, st.content, id)
    }

    /** `ImageDelete` of an image given by its ID.  For a configuration without an image the references go, and
        the call fails. */
    method DeleteByID(id: ID, byPrefix: bool, force: bool, prune: bool, faults: StoreFaults)
      returns (records: seq<Record>, err: Option<Error>, ghost path: seq<ID>, ghost told: Told)
      requires Valid()
      modifies this`refs, st`images, st`content, st`parents, st.ls`core, st.ls`disk, st.ls`panicked
      ensures Valid()
      ensures err == Some(NoSuchImage) <==> !old(Found(id, byPrefix))
      ensures err == Some(NoSuchImage) <==>
        if byPrefix then id !in old(st.images)
        else !(id in old(st.content) && st.ls.digest(old(st.content)[id]) == id && st.parse(old(st.content)[id]).Some?)
      ensures Outcome(old(st.View()), st.View(), old(refs), refs, containers, id, force, prune, err, path)
      ensures (err.Some? && err.value.InConflict?) || err == Some(NoSuchImage) ==>
        path == [] && refs == old(refs) && st.Both() == old(st.Both())
      ensures err.Some? && err.value.InConflict? <==>
        old(Found(id, byPrefix)) && !Deletable(old(st.View()), Ready(old(refs), id), containers, id, force)
      ensures err.Some? && err.value.InConflict? ==>
        IsConflict(old(st.View()), Ready(old(refs), id), containers, id, force, err.value.conflict)
      ensures old(Found(id, byPrefix)) && err != Some(ReferenceError) ==>
        Carried(old(st.Both()), st.Both(), Ready(old(refs), id), containers, id, force, prune, faults.layers,
                err == Some(LayerError), path)
      ensures err == Some(UnknownImage) ==> id !in old(st.images) && RefsTo(refs, id) == {}
      ensures err.None? ==> path != []
      ensures DeletedImages(records) == Recorded(err, path)
      ensures records == told.references + told.images
      ensures Reported(old(st.Both()), old(refs), refs, Recorded(err, path), faults.layers, told)
      ensures ReferencesTold(old(refs), refs, records)
      ensures err.None? ==> LayersTold(old(st.ls.core).layerMap, st.ls.core.layerMap, records)
    {
      if !Found(id, byPrefix) {
        UntaggedNone(refs);
        NothingHappens(st.View(), refs, refs, containers, id, force, prune, Some(NoSuchImage));
        OnlyReferencesTold(st.Both(), refs, refs, faults.layers, []);
        return [], Some(NoSuchImage), [], Told([], []);
      }
      records, err, path, told := DeleteFound(id, force, prune, faults);
    }

    /** `ImageDelete` of an image whose ID was found. */
    method DeleteFound(id: ID, force: bool, prune: bool, faults: StoreFaults)
      returns (records: seq<Record>, err: Option<Error>, ghost path: seq<ID>, ghost told: Told)
      requires Valid()
      modifies this`refs, st`images, st`content, st`parents, st.ls`core, st.ls`disk, st.ls`panicked
      ensures Valid()
      ensures ByID(old(st.Both()), st.Both(), old(refs), refs, containers, id, force, prune, faults, err, path, told,
                   records)
    {
      path := [];
      ghost var w, tags := st.Both(), refs;
      records, err := UntagOnly(id, force, faults);
      told := Told(records, []);
      if err.Some? {
        ByIDEnds(w, refs, containers, id, force, prune, faults, err.value, records);
        return;
      }
      ghost var more;
      records, err, path, more := DeleteHelper(id, records, force, prune, false, faults);
      ByIDHelped(w, st.Both(), tags, refs, containers, id, force, prune, faults, err, path, told.references, more,
                 records);
      told := Told(told.references + more.references, more.images);
    }
  }
}
