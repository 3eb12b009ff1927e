/**
 The images behind `ps --filter ancestor=...`: for each ancestor asked for, the image and all images
 built on it.
 */
module AncestorFilter {
  import opened LayerState
  import opened ImageState

  type ChildrenOf = ID -> seq<ID>

  /** `d` is at most `n` generations below `a`. */
  ghost predicate Within(children: ChildrenOf, a: ID, d: ID, n: nat)
    decreases n
  {
    a == d || (n > 0 && exists i :: 0 <= i < |children(a)| && Within(children, children(a)[i], d, n - 1))
  }

  /** `d` is `a` or built on it. */
  ghost predicate Descends(children: ChildrenOf, a: ID, d: ID) {
    exists n: nat :: Within(children, a, d, n)
  }

  lemma DescendsSelf(children: ChildrenOf, a: ID)
    ensures Descends(children, a, a)
  {
    assert Within(children, a, a, 0);
  }

  /** The descendants of an image are the image and the descendants of its children. */
  lemma DescendsByChild(children: ChildrenOf, a: ID, d: ID)
    ensures Descends(children, a, d)
       <==> a == d || exists i :: 0 <= i < |children(a)| && Descends(children, children(a)[i], d)
  {
    if a == d {
      DescendsSelf(children, a);
    } else if Descends(children, a, d) {
      var n: nat :| Within(children, a, d, n);
      var i :| 0 <= i < |children(a)| && Within(children, children(a)[i], d, n - 1);
      assert Descends(children, children(a)[i], d);
    } else if exists i :: 0 <= i < |children(a)| && Descends(children, children(a)[i], d) {
      var i :| 0 <= i < |children(a)| && Descends(children, children(a)[i], d);
      var n: nat :| Within(children, children(a)[i], d, n);
      assert Within(children, a, d, n + 1);
    }
  }

  ghost predicate Closed(children: ChildrenOf, images: set<ID>) {
    forall a, i :: a in images && 0 <= i < |children(a)| ==> children(a)[i] in images
  }

  /** A closed set has with an image all that is built on it. */
  lemma {:induction false} ClosedWithin(children: ChildrenOf, images: set<ID>, a: ID, d: ID, n: nat)
    requires Closed(children, images) && a in images && Within(children, a, d, n)
    ensures d in images
    decreases n
  {
    if a != d {
      var i :| 0 <= i < |children(a)| && Within(children, children(a)[i], d, n - 1);
      ClosedWithin(children, images, children(a)[i], d, n - 1);
    }
  }

  lemma ClosedDescends(children: ChildrenOf, images: set<ID>, a: ID)
    requires Closed(children, images) && a in images
    ensures forall d :: Descends(children, a, d) ==> d in images
  {
    forall d | Descends(children, a, d) ensures d in images {
      var n: nat :| Within(children, a, d, n);
      ClosedWithin(children, images, a, d, n);
    }
  }

  /** Among the images built on `id`, those not marked do not run in circles; `rank` witnesses it. */
  ghost predicate Grounded(children: ChildrenOf, rank: ID -> nat, marked: set<ID>, id: ID) {
    forall a, i :: 0 <= i < |children(a)| && a !in marked && children(a)[i] !in marked && Descends(children, id, a) ==>
      rank(children(a)[i]) < rank(a)
  }

  /** What is grounded stays so further down, and with more images marked. */
  lemma GroundedBelow(children: ChildrenOf, rank: ID -> nat, marked: set<ID>, more: set<ID>, id: ID, i: nat)
    requires Grounded(children, rank, marked, id) && marked <= more && i < |children(id)|
    ensures Grounded(children, rank, more, children(id)[i])
  {
    forall a, j | 0 <= j < |children(a)| && a !in more && children(a)[j] !in more
                  && Descends(children, children(id)[i], a)
      ensures rank(children(a)[j]) < rank(a)
    {
      DescendsByChild(children, id, a);
    }
  }

  /** `images` is `was` with the descendants of `roots`. */
  ghost predicate Extended(children: ChildrenOf, was: set<ID>, roots: seq<ID>, images: set<ID>) {
    forall d :: d in images <==> d in was || exists i :: 0 <= i < |roots| && Descends(children, roots[i], d)
  }

  lemma ExtendedMore(children: ChildrenOf, was: set<ID>, roots: seq<ID>, some: set<ID>, r: ID, images: set<ID>)
    requires Extended(children, was, roots, some)
    requires forall d :: d in images <==> d in some || Descends(children, r, d)
    ensures Extended(children, was, roots + [r], images)
  {
    var more := roots + [r];
    forall d ensures d in images <==> d in was || exists i :: 0 <= i < |more| && Descends(children, more[i], d) {
      if exists i :: 0 <= i < |roots| && Descends(children, roots[i], d) {
        var i :| 0 <= i < |roots| && Descends(children, roots[i], d);
        assert more[i] == roots[i];
      }
      if Descends(children, r, d) {
        assert more[|roots|] == r;
      }
    }
  }

  /** The image itself joins its descendants. */
  lemma ExtendedSelf(children: ChildrenOf, was: set<ID>, id: ID, images: set<ID>)
    requires Extended(children, was, children(id), images) && Closed(children, images)
    ensures Closed(children, images + {id})
    ensures forall d :: d in images + {id} <==> d in was || Descends(children, id, d)
  {
    forall d ensures d in images + {id} <==> d in was || Descends(children, id, d) {
      DescendsByChild(children, id, d);
    }
    forall i | 0 <= i < |children(id)| ensures children(id)[i] in images {
      DescendsSelf(children, children(id)[i]);
    }
  }

  class ImageFilter {
    var images: set<ID>

    constructor ()
      ensures images == {}
    {
      images := {};
    }

    /** `populateImageFilterByParents`: adds exactly the image and what is built on it, and keeps the set
        closed.  It comes to an end if the images built on it that are not marked yet do not run in circles. */
    method Populate(id: ID, children: ChildrenOf, ghost rank: ID -> nat)
      requires Closed(children, images) && Grounded(children, rank, images, id)
      modifies this
      ensures Closed(children, images)
      ensures forall d :: d in images <==> d in old(images) || Descends(children, id, d)
      decreases if id in images then 0 else rank(id) + 1
    {
      if id in images {
        ClosedDescends(children, images, id);
        return;
      }
      ghost var was := images;
      var cs := children(id);
      DescendsSelf(children, id);
      for i := 0 to |cs|
        invariant Closed(children, images) && Extended(children, was, cs[..i], images)
      {
        ghost var some := images;
        GroundedBelow(children, rank, was, some, id, i);
        Populate(cs[i], children, rank);
        ExtendedMore(children, was, cs[..i], some, cs[i], images);
        assert cs[..i] + [cs[i]] == cs[..i + 1];
      }
      assert cs[..|cs|] == cs;
      ExtendedSelf(children, was, id, images);
      images := images + {id};
    }

    /** The part of `foldFilter` about ancestors: the union over all that can be looked up.  An ancestor
        already in the set is skipped. */
    method FoldAncestors(ancestors: seq<string>, lookUp: string -> Option<ID>, children: ChildrenOf,
                         ghost rank: ID -> nat)
      returns (ghost found: seq<ID>)
      requires images == {}
      requires forall k :: 0 <= k < |ancestors| && lookUp(ancestors[k]).Some? ==>
        Grounded(children, rank, {}, lookUp(ancestors[k]).value)
      modifies this
      ensures found == Found(ancestors, lookUp)
      ensures Closed(children, images) && Extended(children, {}, found, images)
    {
      found := [];
      for k := 0 to |ancestors|
        invariant found == Found(ancestors[..k], lookUp)
        invariant Closed(children, images) && Extended(children, {}, found, images)
      {
        assert ancestors[..k + 1][..k] == ancestors[..k];
        var id := lookUp(ancestors[k]);
        if id.Some? {
          ghost var some := images;
          if id.value !in images {
            Populate(id.value, children, rank);
          } else {
            ClosedDescends(children, images, id.value);
          }
          ExtendedMore(children, {}, found, some, id.value, images);
          found := found + [id.value];
        }
      }
      assert ancestors[..|ancestors|] == ancestors;
    }
  }

  /** The images that the names stand for. */
  function Found(ancestors: seq<string>, lookUp: string -> Option<ID>): seq<ID> {
    if ancestors == [] then []
    else
      var id := lookUp(ancestors[|ancestors| - 1]);
      Found(ancestors[..|ancestors| - 1], lookUp) + if id.Some? then [id.value] else []
  }
}
