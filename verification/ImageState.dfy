/**
 The image store: image configurations on disk, one layer handle per image, and an index of children
 that mirrors the parent recorded in each image's metadata.
 */
module ImageState {
  import opened LayerState

  type ID = string

  datatype HistoryEntry = HistoryEntry(emptyLayer: bool, createdBy: string)

  /** What the stores read from an image configuration. */
  datatype Image = Image(diffIDs: seq<string>, history: seq<HistoryEntry>)

  /** Reading a configuration; none for one that is not valid JSON or has no RootFS. */
  type Parser = string -> Option<Image>

  datatype ImageMeta = ImageMeta(layer: Option<Handle>, children: set<ID>)

  /** The images in memory, and the configurations and parent metadata on disk. */
  datatype Images = Images(images: map<ID, ImageMeta>, content: map<ID, string>, parents: map<ID, ID>)

  const NoImages := Images(map[], map[], map[])

  function NonEmptyLayers(history: seq<HistoryEntry>): nat {
    if history == [] then 0
    else NonEmptyLayers(history[..|history| - 1]) + if history[|history| - 1].emptyLayer then 0 else 1
  }

  /** `Create` rejects a history that speaks of more layers than there are. */
  predicate Accepted(img: Image) {
    NonEmptyLayers(img.history) <= |img.diffIDs|
  }

  // ----- Operations on the index -----

  function AddImage(im: Images, id: ID, layer: Option<Handle>): Images {
    im.(images := im.images[id := ImageMeta(layer, {})])
  }

  /** The parent of an image as its metadata have it; they are read only for a stored configuration. */
  function GetParent(im: Images, id: ID): Option<ID> {
    if id in im.content && id in im.parents then Some(im.parents[id]) else None
  }

  function Children(im: Images, id: ID): set<ID> {
    if id in im.images then im.images[id].children else {}
  }

  function DropChild(images: map<ID, ImageMeta>, parent: ID, id: ID): map<ID, ImageMeta> {
    if parent in images then images[parent := images[parent].(children := images[parent].children - {id})] else images
  }

  /** `Delete`, up to the release of the layer. */
  function DeleteImage(im: Images, id: ID): Images
    requires id in im.images
  {
    var orphaned := im.(parents := im.parents - im.images[id].children);
    var parent := GetParent(orphaned, id);
    Images((if parent.Some? then DropChild(im.images, parent.value, id) else im.images) - {id},
           im.content - {id},
           orphaned.parents - {id})
  }

  function SetParent(im: Images, id: ID, parent: ID): (Images, bool) {
    if parent !in im.images then (im, false)
    else
      var m := im.images[parent];
      var linked := im.(images := im.images[parent := m.(children := m.children + {id})]);
      if id in im.content then (linked.(parents := im.parents[id := parent]), true) else (linked, false)
  }

  // ----- Consistency -----

  /** `children` is the inverse of the parent metadata. */
  ghost predicate Inverse(images: map<ID, ImageMeta>, parents: map<ID, ID>) {
    forall p, c {:trigger c in images[p].children} ::
      p in images ==> (c in images[p].children <==> c in parents && parents[c] == p)
  }

  /** Only stored images have a parent, and it is stored. */
  ghost predicate NoDangling(images: map<ID, ImageMeta>, parents: map<ID, ID>) {
    forall c :: c in parents ==> c in images && parents[c] in images
  }

  ghost predicate Consistent(im: Images) {
    && Inverse(im.images, im.parents)
    && NoDangling(im.images, im.parents)
    && (forall id :: id in im.images ==> id in im.content)
  }

  /** Every stored parent is an image that has the child in its index; the index may hold more, such as a child
      that was moved.  Parents are recorded for stored configurations only. */
  ghost predicate Indexed(im: Images) {
    forall c :: c in im.parents ==>
      c in im.content && im.parents[c] in im.images && c in im.images[im.parents[c]].children
  }

  lemma DeleteIndexed(im: Images, id: ID)
    requires Indexed(im) && id in im.images
    ensures Indexed(DeleteImage(im, id))
  {
    var n := DeleteImage(im, id);
    forall c | c in n.parents
      ensures c in n.content && n.parents[c] in n.images && c in n.images[n.parents[c]].children
    {
      assert c in im.parents && c != id && c !in im.images[id].children;
    }
  }

  lemma SetParentIndexed(im: Images, id: ID, parent: ID)
    requires Indexed(im)
    ensures Indexed(SetParent(im, id, parent).0)
  {
  }

  lemma AddIndexed(im: Images, id: ID, layer: Option<Handle>)
    requires Indexed(im) && id !in im.images
    ensures Indexed(AddImage(im, id, layer))
  {
  }

  /** A restart keeps every stored parent in place exactly if each of them has its configuration. */
  lemma RestoredIndexedIff(im: Images, images: map<ID, ImageMeta>)
    requires Indexed(im) && RestoredFrom(images, im.parents, im.content.Keys)
    ensures Indexed(im.(images := images)) <==> forall c :: c in im.parents ==> im.parents[c] in im.content
  {
    var n := im.(images := images);
    if forall c :: c in im.parents ==> im.parents[c] in im.content {
      forall c | c in n.parents
        ensures c in n.content && n.parents[c] in n.images && c in n.images[n.parents[c]].children
      {
        assert c in images.Keys && im.parents[c] in images.Keys;
      }
    } else {
      var c :| c in im.parents && im.parents[c] !in im.content;
      assert im.parents[c] !in images.Keys;
    }
  }

  /** What `Delete` leaves: the image is gone, its children are without parent, all else is as before. */
  lemma DeleteEffect(im: Images, id: ID)
    requires Consistent(im) && id in im.images
    ensures var n := DeleteImage(im, id);
      && Consistent(n)
      && n.images.Keys == im.images.Keys - {id} && n.content == im.content - {id}
      && n.parents == im.parents - (im.images[id].children + {id})
      && (forall x :: x in n.images ==>
            n.images[x] == im.images[x].(children := im.images[x].children - {id}))
  {
    var n := DeleteImage(im, id);
    forall x | x in n.images
      ensures n.images[x] == im.images[x].(children := im.images[x].children - {id})
    {
      if id !in im.images[x].children {
        assert im.images[x].children - {id} == im.images[x].children;
      } else {
        assert im.parents[id] == x;
      }
    }
    assert n.parents == im.parents - (im.images[id].children + {id});
    forall p, c | p in n.images ensures c in n.images[p].children <==> c in n.parents && n.parents[c] == p {
      assert c in im.images[p].children <==> c in im.parents && im.parents[c] == p;
      assert c in im.images[id].children <==> c in im.parents && im.parents[c] == id;
    }
    forall c | c in n.parents ensures c in n.images && n.parents[c] in n.images {
      assert c in im.images[id].children <==> c in im.parents && im.parents[c] == id;
    }
  }

  /** Giving an image a parent is sound if the image is stored and has no other parent. */
  predicate MayBeChild(im: Images, id: ID, parent: ID) {
    id in im.images && (id in im.parents ==> im.parents[id] == parent)
  }

  /** `SetParent` never takes the image out of an earlier parent's children, so it keeps the index
      consistent exactly when the parent is unknown or the image is stored and has no other parent. */
  lemma SetParentConsistent(im: Images, id: ID, parent: ID)
    requires Consistent(im)
    ensures Consistent(SetParent(im, id, parent).0) <==> parent !in im.images || MayBeChild(im, id, parent)
  {
    if parent in im.images {
      var n := SetParent(im, id, parent).0;
      assert id in n.images[parent].children;
      if id in im.parents && im.parents[id] != parent {
        assert im.parents[id] in im.images && id in im.images[im.parents[id]].children;
        assert id in n.images[im.parents[id]].children;
        assert !Inverse(n.images, n.parents);
      } else if id in im.images {
        forall p, c | p in n.images ensures c in n.images[p].children <==> c in n.parents && n.parents[c] == p {
          assert c in im.images[p].children <==> c in im.parents && im.parents[c] == p;
        }
      } else if id in im.content {
        assert id in n.parents;
      }
    }
  }

  /** An image that is moved from one parent to another stays among the children of both. */
  lemma MovedChildIsKeptTwice(im: Images, id: ID, first: ID, second: ID)
    requires Consistent(im) && id in im.images && first in im.images && second in im.images && first != second
    ensures var n := SetParent(SetParent(im, id, first).0, id, second).0;
      id in Children(n, first) && id in Children(n, second) && n.parents[id] == second && !Consistent(n)
  {
    var n := SetParent(SetParent(im, id, first).0, id, second).0;
    assert id in n.images[first].children;
    assert !Inverse(n.images, n.parents);
  }

  // ----- Restoring -----

  /** What `restore` makes of the disk: an image for every configuration, and for children whatever
      the parent metadata say. */
  ghost predicate RestoredFrom(images: map<ID, ImageMeta>, parents: map<ID, ID>, keys: set<ID>) {
    && images.Keys == keys
    && forall p, c {:trigger c in images[p].children} ::
         p in images ==> (c in images[p].children <==> c in images && c in parents && parents[c] == p)
  }

  /** A restart gives back the same images with the same children, provided no configuration was left
      behind by a `Create` that failed; one that was left comes back as an image on its own. */
  lemma RestoreRebuilds(im: Images, images: map<ID, ImageMeta>)
    requires Consistent(im) && RestoredFrom(images, im.parents, im.content.Keys)
    ensures forall id :: id in im.images ==> id in images && images[id].children == im.images[id].children
    ensures forall id :: id in images && id !in im.images ==> images[id].children == {}
    ensures images.Keys == im.images.Keys <==> im.content.Keys <= im.images.Keys
    ensures Consistent(im.(images := images))
  {
    forall id, c | id in im.images ensures c in images[id].children <==> c in im.images[id].children {
      assert c in im.images[id].children <==> c in im.parents && im.parents[c] == id;
    }
    forall id | id in images && id !in im.images ensures images[id].children == {} {
      forall c ensures c !in images[id].children {}
    }
  }
}
