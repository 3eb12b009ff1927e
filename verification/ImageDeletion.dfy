/**
 Deleting images: what prevents a deletion, and which images go along with the one asked for.
 */
module ImageDeletion {
  import opened LayerState
  import opened ImageState

  /** A repository reference; a canonical one names a digest, any other a tag. */
  datatype Ref = Ref(name: string, canonical: bool)

  datatype Container = Container(id: string, imageID: ID, running: bool)

  function RefsTo(refs: map<Ref, ID>, id: ID): set<Ref> {
    set r | r in refs && refs[r] == id
  }

  predicate Uses(containers: seq<Container>, id: ID, running: bool) {
    exists i :: 0 <= i < |containers| && containers[i].imageID == id && containers[i].running == running
  }

  // ----- Conflicts -----

  datatype Conflict = DependentChild | RunningContainer | ActiveReference | StoppedContainer
  {
    predicate Used() { RunningContainer? || StoppedContainer? }
  }

  const HardConflicts: set<Conflict> := {DependentChild, RunningContainer}
  const SoftConflicts: set<Conflict> := {ActiveReference, StoppedContainer}

  /** `checkImageDeleteConflict`: the first conflict the mask asks for. */
  function CheckConflict(im: Images, refs: map<Ref, ID>, containers: seq<Container>, id: ID, mask: set<Conflict>)
    : Option<Conflict>
  {
    if DependentChild in mask && Children(im, id) != {} then Some(DependentChild)
    else if RunningContainer in mask && Uses(containers, id, true) then Some(RunningContainer)
    else if ActiveReference in mask && RefsTo(refs, id) != {} then Some(ActiveReference)
    else if StoppedContainer in mask && Uses(containers, id, false) then Some(StoppedContainer)
    else None
  }

  predicate IsDangling(im: Images, refs: map<Ref, ID>, id: ID) {
    !(RefsTo(refs, id) != {} || Children(im, id) != {})
  }

  function Mask(force: bool): set<Conflict> {
    HardConflicts + if force then {} else SoftConflicts
  }

  /** What the documentation promises: no descendants and no running container, and without force no
      reference and no stopped container either. */
  predicate Deletable(im: Images, refs: map<Ref, ID>, containers: seq<Container>, id: ID, force: bool) {
    && Children(im, id) == {} && !Uses(containers, id, true)
    && (!force ==> RefsTo(refs, id) == {} && !Uses(containers, id, false))
  }

  lemma ConflictIffNotDeletable(im: Images, refs: map<Ref, ID>, containers: seq<Container>, id: ID, force: bool)
    ensures CheckConflict(im, refs, containers, id, Mask(force)).None? <==> Deletable(im, refs, containers, id, force)
  {
  }

  /** Which conflict is reported: the first there is of children, a running container, a reference and a stopped
      container, the last two only without force. */
  predicate IsConflict(im: Images, refs: map<Ref, ID>, containers: seq<Container>, id: ID, force: bool, c: Conflict) {
    var child := id in im.images && im.images[id].children != {};
    var running := exists i :: 0 <= i < |containers| && containers[i].imageID == id && containers[i].running;
    var stopped := exists i :: 0 <= i < |containers| && containers[i].imageID == id && !containers[i].running;
    var tagged := exists r :: r in refs && refs[r] == id;
    match c
    case DependentChild => child
    case RunningContainer => !child && running
    case ActiveReference => !force && !child && !running && tagged
    case StoppedContainer => !force && !child && !running && !tagged && stopped
  }

  lemma ConflictIsFirst(im: Images, refs: map<Ref, ID>, containers: seq<Container>, id: ID, force: bool, c: Conflict)
    ensures CheckConflict(im, refs, containers, id, Mask(force)) == Some(c)
       <==> IsConflict(im, refs, containers, id, force, c)
  {
    assert RefsTo(refs, id) != {} <==> exists r :: r in refs && refs[r] == id by {
      if r :| r in refs && refs[r] == id {
        assert r in RefsTo(refs, id);
      }
    }
  }

  /** A conflict on a dangling image is always one of use, so a quiet deletion never reports any. */
  lemma DanglingConflictIsUse(im: Images, refs: map<Ref, ID>, containers: seq<Container>, id: ID, mask: set<Conflict>)
    requires CheckConflict(im, refs, containers, id, mask).Some?
    ensures !IsDangling(im, refs, id) || CheckConflict(im, refs, containers, id, mask).value.Used()
  {
  }

  // ----- The images that go -----

  /** Deleting one image after the other. */
  function DeleteAll(im: Images, path: seq<ID>): Images
    decreases |path|
  {
    if path == [] then im
    else if path[0] in im.images then DeleteAll(DeleteImage(im, path[0]), path[1..])
    else im
  }

  /** `path` starts at `id` and climbs from image to parent; each image is deletable when its turn
      comes, and only the first one may be forced. */
  ghost predicate Climbs(im: Images, refs: map<Ref, ID>, containers: seq<Container>, id: ID, force: bool, path: seq<ID>)
    decreases |path|
  {
    path != [] ==>
      && path[0] == id && id in im.images
      && Children(im, id) == {} && !Uses(containers, id, true) && (!force ==> !Uses(containers, id, false))
      && (|path| > 1 ==>
            && GetParent(im, id).Some?
            && RefsTo(refs, GetParent(im, id).value) == {}
            && Climbs(DeleteImage(im, id), refs, containers, GetParent(im, id).value, false, path[1..]))
  }

  lemma FewerImages(im: Images, id: ID)
    requires id in im.images
    ensures |DeleteImage(im, id).images| < |im.images|
  {
    var n := DeleteImage(im, id);
    assert n.images.Keys == im.images.Keys - {id};
    assert |n.images| == |n.images.Keys| && |im.images| == |im.images.Keys|;
  }

  /** The images a deletion is after, if no store fails: the one asked for, if it may go, and with prune its
      ancestors for as long as they may go. */
  function Intended(im: Images, refs: map<Ref, ID>, containers: seq<Container>, id: ID, force: bool, prune: bool)
    : seq<ID>
    decreases |im.images|
  {
    if id !in im.images || !Deletable(im, refs, containers, id, force) then []
    else
      FewerImages(im, id);
      var parent := GetParent(im, id);
      if prune && parent.Some? then [id] + Intended(DeleteImage(im, id), refs, containers, parent.value, false, true)
      else [id]
  }

  /** References are only taken away, and none but those to `id`. */
  ghost predicate OnlyUntags(refs: map<Ref, ID>, after: map<Ref, ID>, id: ID) {
    && (forall r :: r in after ==> r in refs && refs[r] == after[r])
    && (forall r :: r in refs && refs[r] != id ==> r in after)
  }

  lemma RefsToOthers(refs: map<Ref, ID>, after: map<Ref, ID>, id: ID, x: ID)
    requires OnlyUntags(refs, after, id) && x != id
    ensures RefsTo(after, x) == RefsTo(refs, x)
  {
  }

  /** References to an image that is gone do not matter to what else is to go. */
  lemma {:induction false} IntendedBefore(im: Images, refs: map<Ref, ID>, after: map<Ref, ID>, gone: ID,
                                          containers: seq<Container>, id: ID, force: bool, prune: bool)
    requires gone !in im.images && OnlyUntags(refs, after, gone)
    ensures Intended(im, after, containers, id, force, prune) == Intended(im, refs, containers, id, force, prune)
    decreases |im.images|
  {
    if id in im.images && Deletable(im, refs, containers, id, force) && prune && GetParent(im, id).Some? {
      RefsToOthers(refs, after, gone, id);
      FewerImages(im, id);
      IntendedBefore(DeleteImage(im, id), refs, after, gone, containers, GetParent(im, id).value, false, true);
    } else if id in im.images {
      RefsToOthers(refs, after, gone, id);
    }
  }

  /** Prune goes as far as it can: the image above the last one is missing or may not go. */
  ghost predicate Exhausted(im: Images, n: Images, refs: map<Ref, ID>, containers: seq<Container>, path: seq<ID>) {
    path != [] && GetParent(im, path[|path| - 1]).Some? ==>
      !Deletable(n, refs, containers, GetParent(im, path[|path| - 1]).value, false)
  }

  /** Deleting a childless image takes it away from its stored parent, which is another image, and leaves
      everybody else's parent. */
  lemma ParentStays(im: Images, id: ID)
    requires Indexed(im) && id in im.images && Children(im, id) == {}
    ensures Indexed(DeleteImage(im, id))
    ensures DeleteImage(im, id).images.Keys == im.images.Keys - {id}
    ensures DeleteImage(im, id).parents == im.parents - {id} && DeleteImage(im, id).content == im.content - {id}
    ensures forall x :: x != id ==> GetParent(DeleteImage(im, id), x) == GetParent(im, x)
    ensures GetParent(im, id).Some? ==>
      && GetParent(im, id).value != id && GetParent(im, id).value in im.images
      && id in Children(im, GetParent(im, id).value)
    ensures forall x :: GetParent(im, x) != Some(id)
    ensures forall x :: x in im.images && x != id ==>
      Children(DeleteImage(im, id), x) == Children(im, x) - if GetParent(im, id) == Some(x) then {id} else {}
    ensures forall x :: x in im.images && x != id ==> DeleteImage(im, id).images[x].layer == im.images[x].layer
  {
    DeleteIndexed(im, id);
    assert im.parents - im.images[id].children == im.parents;
  }

  /** The children an image loses with a path: those whose stored parent it is. */
  ghost predicate LostFrom(im: Images, path: seq<ID>, x: ID, c: ID) {
    c in path && GetParent(im, c) == Some(x)
  }

  /** What becomes of an image that is not on the path: it keeps its layer and its parent, the parent is still
      there, and of its children it loses only those on the path. */
  ghost predicate Survives(im: Images, n: Images, path: seq<ID>, x: ID)
    requires x in im.images && x in n.images
  {
    && n.images[x].layer == im.images[x].layer
    && GetParent(n, x) == GetParent(im, x)
    && (GetParent(im, x).Some? ==> GetParent(im, x).value !in path)
    && (forall c :: c in Children(n, x) <==> c in Children(im, x) && !LostFrom(im, path, x, c))
  }

  /** What it means that the images of a path go: exactly they leave the store, and the others survive. */
  ghost predicate OnlyPathGone(im: Images, n: Images, path: seq<ID>) {
    && (forall x :: x in path ==> x in im.images)
    && (forall x :: x in n.images <==> x in im.images && x !in path)
    && (forall x :: x in n.images && x in im.images ==> Survives(im, n, path, x))
  }

  lemma SurvivesCons(im: Images, m: Images, n: Images, id: ID, rest: seq<ID>, x: ID)
    requires Indexed(im) && id in im.images && Children(im, id) == {} && m == DeleteImage(im, id)
    requires id !in rest && x in n.images && x in m.images && x in im.images && x != id && Survives(m, n, rest, x)
    ensures Survives(im, n, [id] + rest, x)
  {
    ParentStays(im, id);
    forall c ensures c in Children(n, x) <==> c in Children(im, x) && !LostFrom(im, [id] + rest, x, c) {
      assert c in Children(n, x) <==> c in Children(m, x) && !LostFrom(m, rest, x, c);
      assert c in [id] + rest <==> c == id || c in rest;
    }
  }

  lemma OnlyPathGoneCons(im: Images, m: Images, n: Images, id: ID, rest: seq<ID>)
    requires Indexed(im) && id in im.images && Children(im, id) == {} && m == DeleteImage(im, id)
    requires OnlyPathGone(m, n, rest)
    ensures OnlyPathGone(im, n, [id] + rest)
  {
    ParentStays(im, id);
    assert id !in m.images.Keys;
    forall x | x in n.images && x in im.images ensures Survives(im, n, [id] + rest, x) {
      assert x in m.images && x != id;
      SurvivesCons(im, m, n, id, rest, x);
    }
  }

  /** `ImageDelete` never orphans: an upward path can be deleted without leaving anyone's parent missing, and
      nothing but the path changes, whatever moves and failures there were before. */
  lemma {:induction false} ClimbDeletes(im: Images, refs: map<Ref, ID>, containers: seq<Container>, id: ID, force: bool,
                                        path: seq<ID>)
    requires Indexed(im) && Climbs(im, refs, containers, id, force, path)
    ensures Indexed(DeleteAll(im, path)) && OnlyPathGone(im, DeleteAll(im, path), path)
    decreases |path|
  {
    if path != [] {
      ParentStays(im, id);
      var m, n := DeleteImage(im, id), DeleteAll(im, path);
      if |path| > 1 {
        ClimbDeletes(m, refs, containers, GetParent(im, id).value, false, path[1..]);
      } else {
        assert path[1..] == [];
        assert DeleteAll(m, path[1..]) == m;
      }
      OnlyPathGoneCons(im, m, n, id, path[1..]);
      assert path == [id] + path[1..];
    }
  }

  /** The `i`-th image of a path, in terms of the store before: it is the parent of the one before it and
      has no other child, no running container uses it, a stopped one only if it is the first and by
      force, and no reference names it unless it is the first. */
  ghost predicate UpwardAt(im: Images, refs: map<Ref, ID>, containers: seq<Container>, force: bool, path: seq<ID>,
                           i: nat)
    requires i < |path|
  {
    && path[i] in im.images && path[i] !in path[..i]
    && !Uses(containers, path[i], true)
    && (i > 0 || !force ==> !Uses(containers, path[i], false))
    && (i > 0 ==> RefsTo(refs, path[i]) == {} && GetParent(im, path[i - 1]) == Some(path[i]))
    && Children(im, path[i]) == if i == 0 then {} else {path[i - 1]}
  }

  ghost predicate Upward(im: Images, refs: map<Ref, ID>, containers: seq<Container>, force: bool, path: seq<ID>) {
    forall i :: 0 <= i < |path| ==> UpwardAt(im, refs, containers, force, path, i)
  }

  lemma UpwardNext(im: Images, m: Images, refs: map<Ref, ID>, containers: seq<Container>, id: ID, force: bool,
                   rest: seq<ID>, i: nat)
    requires Indexed(im) && id in im.images && Children(im, id) == {} && m == DeleteImage(im, id)
    requires rest != [] && GetParent(im, id) == Some(rest[0]) && RefsTo(refs, rest[0]) == {}
    requires i < |rest| && UpwardAt(m, refs, containers, false, rest, i)
    ensures UpwardAt(im, refs, containers, force, [id] + rest, i + 1)
  {
    ParentStays(im, id);
    var x, path := rest[i], [id] + rest;
    assert path[..i + 1] == [id] + rest[..i];
    if i == 0 {
      assert Children(im, x) == {id};
    } else {
      assert rest[..i][0] == rest[0];
      assert path[i] == rest[i - 1];
      assert Children(im, x) - {} == Children(im, x);
    }
  }

  lemma UpwardCons(im: Images, refs: map<Ref, ID>, containers: seq<Container>, id: ID, force: bool, rest: seq<ID>)
    requires Indexed(im) && id in im.images && Children(im, id) == {} && !Uses(containers, id, true)
    requires !force ==> !Uses(containers, id, false)
    requires rest != [] ==> GetParent(im, id) == Some(rest[0]) && RefsTo(refs, rest[0]) == {}
    requires Upward(DeleteImage(im, id), refs, containers, false, rest)
    ensures Upward(im, refs, containers, force, [id] + rest)
  {
    forall i | 0 <= i < |[id] + rest| ensures UpwardAt(im, refs, containers, force, [id] + rest, i) {
      if i > 0 {
        UpwardNext(im, DeleteImage(im, id), refs, containers, id, force, rest, i - 1);
      }
    }
  }

  lemma {:induction false} ClimbIsUpward(im: Images, refs: map<Ref, ID>, containers: seq<Container>, id: ID,
                                         force: bool, path: seq<ID>)
    requires Indexed(im) && Climbs(im, refs, containers, id, force, path)
    ensures path != [] ==> path[0] == id
    ensures Upward(im, refs, containers, force, path)
    decreases |path|
  {
    if path != [] {
      ParentStays(im, id);
      if |path| > 1 {
        ClimbIsUpward(DeleteImage(im, id), refs, containers, GetParent(im, id).value, false, path[1..]);
        assert path[1..][0] == GetParent(im, id).value;
      } else {
        assert path[1..] == [];
      }
      UpwardCons(im, refs, containers, id, force, path[1..]);
      assert path == [id] + path[1..];
    }
  }

  /** What a move does to deletion: the first parent keeps the image among its children even after the image is
      gone, so that it cannot be deleted any more, by force or without, though no image has it for a parent. */
  lemma MovedChildBlocksFirstParent(im: Images, c: ID, first: ID, second: ID, refs: map<Ref, ID>,
                                    containers: seq<Container>, force: bool)
    requires Consistent(im) && c in im.images && first in im.images && second in im.images
    requires c != first && c != second && first != second && Children(im, first) == {}
    ensures var moved := SetParent(SetParent(im, c, first).0, c, second).0;
      && c in moved.images
      && var n := DeleteImage(moved, c);
         && first in n.images && c !in n.images && (forall x :: GetParent(n, x) != Some(first))
         && CheckConflict(n, refs, containers, first, Mask(force)) == Some(DependentChild)
  {
    var moved := SetParent(SetParent(im, c, first).0, c, second).0;
    var n := DeleteImage(moved, c);
    assert c in n.images[first].children;
    forall x ensures GetParent(n, x) != Some(first) {
      assert x in im.images[first].children <==> x in im.parents && im.parents[x] == first;
    }
  }
}
