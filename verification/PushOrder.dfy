/**
 The order in which a push to a v1 registry uploads images: every layer below a tagged image becomes a
 dependency image of its own, uploaded once for all tags and after the one below it.
 */
module PushOrder {
  import opened LayerState
  import opened LayerSafety

  type Hex = string -> string

  datatype Entry =
    | Dependency(layer: Obj, v1ID: string, parentV1ID: Option<string>)
    | Top(image: string, top: Option<Obj>, v1ID: string, parentV1ID: Option<string>)

  /** The layers of a store: acyclic, one per ChainID, parents included. */
  ghost predicate Layers(objs: map<Obj, RoLayer>, layerMap: map<string, Obj>) {
    Acyclic(objs) && Keyed(objs, layerMap) && ParentsIn(objs, layerMap)
  }

  ghost predicate Stored(objs: map<Obj, RoLayer>, layerMap: map<string, Obj>, l: Option<Obj>) {
    l.Some? ==> InMap(objs, layerMap, l.value)
  }

  /** The parent of a layer; the empty layer has none. */
  function Below(objs: map<Obj, RoLayer>, l: Option<Obj>): Option<Obj>
    requires ValidParent(objs, l)
  {
    if l.None? then None else objs[l.value].parent
  }

  function V1ID(objs: map<Obj, RoLayer>, hex: Hex, l: Obj): string
    requires l in objs
  {
    hex(objs[l].chainID)
  }

  function ParentID(objs: map<Obj, RoLayer>, hex: Hex, l: Option<Obj>): Option<string>
    requires ValidParent(objs, l) && Acyclic(objs)
  {
    var p := Below(objs, l);
    if p.None? then None else Some(V1ID(objs, hex, p.value))
  }

  function DependencyOf(objs: map<Obj, RoLayer>, hex: Hex, l: Obj): Entry
    requires Acyclic(objs) && l in objs
  {
    Dependency(l, V1ID(objs, hex, l), ParentID(objs, hex, Some(l)))
  }

  // ----- What the recursion computes -----

  /** The layers from the base up to `l`, without those whose ChainID has been seen. */
  function Unseen(objs: map<Obj, RoLayer>, hex: Hex, l: Option<Obj>, seen: set<string>): seq<Entry>
    requires Acyclic(objs) && ValidParent(objs, l)
    decreases if l.Some? then l.value + 1 else 0
  {
    if l.None? then []
    else
      var below := Unseen(objs, hex, objs[l.value].parent, seen);
      if objs[l.value].chainID in seen then below else below + [DependencyOf(objs, hex, l.value)]
  }

  function Chain(objs: map<Obj, RoLayer>, l: Option<Obj>): set<string>
    requires Acyclic(objs) && ValidParent(objs, l)
    decreases if l.Some? then l.value + 1 else 0
  {
    if l.None? then {} else Chain(objs, objs[l.value].parent) + {objs[l.value].chainID}
  }

  /** The layers below have other ChainIDs. */
  lemma {:induction false} NotInOwnChain(objs: map<Obj, RoLayer>, layerMap: map<string, Obj>, l: Option<Obj>, o: Obj)
    requires Layers(objs, layerMap) && Stored(objs, layerMap, l) && InMap(objs, layerMap, o)
    requires l.Some? ==> l.value < o
    ensures objs[o].chainID !in Chain(objs, l)
    decreases if l.Some? then l.value + 1 else 0
  {
    if l.Some? {
      assert ParentIn(objs, layerMap, objs[l.value].parent);
      NotInOwnChain(objs, layerMap, objs[l.value].parent, o);
    }
  }

  // ----- What a list is to be like -----

  /** The entry names its parent, and the parent stands before it. */
  ghost predicate WellPlaced(objs: map<Obj, RoLayer>, hex: Hex, list: seq<Entry>, i: nat)
    requires i < |list| && Acyclic(objs)
  {
    var l := if list[i].Dependency? then Some(list[i].layer) else list[i].top;
    && ValidParent(objs, l) && list[i].parentV1ID == ParentID(objs, hex, l)
    && var p := Below(objs, l);
       p.Some? ==> DependencyOf(objs, hex, p.value) in list[..i]
  }

  ghost predicate Placed(objs: map<Obj, RoLayer>, hex: Hex, list: seq<Entry>)
    requires Acyclic(objs)
  {
    forall i :: 0 <= i < |list| ==> WellPlaced(objs, hex, list, i)
  }

  /** Each layer is a dependency at most once, and those that are have been seen. */
  ghost predicate Once(objs: map<Obj, RoLayer>, layerMap: map<string, Obj>, hex: Hex, list: seq<Entry>,
                       seen: set<string>)
    requires Acyclic(objs) && Keyed(objs, layerMap)
  {
    && (forall i :: 0 <= i < |list| && list[i].Dependency? ==>
          list[i].layer in objs && list[i] == DependencyOf(objs, hex,
                                                           list[i].layer) && objs[list[i].layer].chainID in seen)
    && (forall i, j :: 0 <= i < j < |list| && list[i].Dependency? && list[j].Dependency? ==>
          objs[list[i].layer].chainID != objs[list[j].layer].chainID)
    && (forall c :: c in seen ==> c in layerMap && DependencyOf(objs, hex, layerMap[c]) in list)
  }

  ghost predicate Pushable(objs: map<Obj, RoLayer>, layerMap: map<string, Obj>, hex: Hex, list: seq<Entry>,
                           seen: set<string>)
    requires Acyclic(objs) && Keyed(objs, layerMap)
  {
    Placed(objs, hex, list) && Once(objs, layerMap, hex, list, seen)
  }

  lemma PlacedMore(objs: map<Obj, RoLayer>, hex: Hex, list: seq<Entry>, e: Entry)
    requires Acyclic(objs) && Placed(objs, hex, list) && WellPlaced(objs, hex, list + [e], |list|)
    ensures Placed(objs, hex, list + [e])
  {
    forall i | 0 <= i < |list + [e]| ensures WellPlaced(objs, hex, list + [e], i) {
      if i < |list| {
        assert WellPlaced(objs, hex, list, i);
        assert (list + [e])[..i] == list[..i];
      }
    }
  }

  lemma OnceMore(objs: map<Obj, RoLayer>, layerMap: map<string, Obj>, hex: Hex, list: seq<Entry>, seen: set<string>,
                 l: Obj)
    requires Layers(objs, layerMap) && InMap(objs, layerMap, l) && Once(objs, layerMap, hex, list, seen)
    requires objs[l].chainID !in seen
    ensures Once(objs, layerMap, hex, list + [DependencyOf(objs, hex, l)], seen + {objs[l].chainID})
  {
    var e := DependencyOf(objs, hex, l);
    forall c | c in seen + {objs[l].chainID}
      ensures c in layerMap && DependencyOf(objs, hex, layerMap[c]) in list + [e]
    {
      if c != objs[l].chainID {
        assert DependencyOf(objs, hex, layerMap[c]) in list;
      } else {
        assert (list + [e])[|list|] == e;
      }
    }
  }

  /** One more layer, its parent being on the list. */
  lemma DependencyJoins(objs: map<Obj, RoLayer>, layerMap: map<string, Obj>, hex: Hex, list: seq<Entry>,
                        seen: set<string>, l: Obj)
    requires Layers(objs, layerMap) && InMap(objs, layerMap, l) && Pushable(objs, layerMap, hex, list, seen)
    requires objs[l].chainID !in seen && (objs[l].parent.Some? ==> objs[objs[l].parent.value].chainID in seen)
    ensures Pushable(objs, layerMap, hex, list + [DependencyOf(objs, hex, l)], seen + {objs[l].chainID})
  {
    var e := DependencyOf(objs, hex, l);
    OnceMore(objs, layerMap, hex, list, seen, l);
    assert ParentIn(objs, layerMap, objs[l].parent);
    assert (list + [e])[..|list|] == list;
    PlacedMore(objs, hex, list, e);
  }

  /** The layers of a tag that were not seen before can be appended. */
  lemma {:induction false} UnseenJoins(objs: map<Obj, RoLayer>, layerMap: map<string, Obj>, hex: Hex,
                                       list: seq<Entry>, seen: set<string>, l: Option<Obj>)
    requires Layers(objs, layerMap) && Stored(objs, layerMap, l) && Pushable(objs, layerMap, hex, list, seen)
    ensures Pushable(objs, layerMap, hex, list + Unseen(objs, hex, l, seen), seen + Chain(objs, l))
    decreases if l.Some? then l.value + 1 else 0
  {
    if l.None? {
      assert list + Unseen(objs, hex, l, seen) == list && seen + Chain(objs, l) == seen;
    } else {
      var p, c := objs[l.value].parent, objs[l.value].chainID;
      assert ParentIn(objs, layerMap, p);
      UnseenJoins(objs, layerMap, hex, list, seen, p);
      NotInOwnChain(objs, layerMap, p, l.value);
      var longer, more := list + Unseen(objs, hex, p, seen), seen + Chain(objs, p);
      if c in seen {
        assert list + Unseen(objs, hex, l, seen) == longer;
        assert seen + Chain(objs, l) == more;
      } else {
        DependencyJoins(objs, layerMap, hex, longer, more, l.value);
        assert list + Unseen(objs, hex, l, seen) == longer + [DependencyOf(objs, hex, l.value)];
        assert seen + Chain(objs, l) == more + {c};
      }
    }
  }

  lemma TopJoins(objs: map<Obj, RoLayer>, layerMap: map<string, Obj>, hex: Hex, list: seq<Entry>, seen: set<string>,
                 e: Entry)
    requires Layers(objs, layerMap) && Pushable(objs, layerMap, hex, list, seen)
    requires e.Top? && Stored(objs, layerMap, e.top) && e.parentV1ID == ParentID(objs, hex, e.top)
    requires Below(objs, e.top).Some? ==> objs[Below(objs, e.top).value].chainID in seen
    ensures Pushable(objs, layerMap, hex, list + [e], seen)
  {
    var p := Below(objs, e.top);
    if p.Some? {
      assert ParentIn(objs, layerMap, objs[e.top.value].parent);
      assert DependencyOf(objs, hex, p.value) in list;
    }
    assert (list + [e])[..|list|] == list;
    PlacedMore(objs, hex, list, e);
    forall c | c in seen ensures DependencyOf(objs, hex, layerMap[c]) in list + [e] {
      assert DependencyOf(objs, hex, layerMap[c]) in list;
    }
  }

  lemma {:induction false} OwnChain(objs: map<Obj, RoLayer>, l: Option<Obj>)
    requires Acyclic(objs) && ValidParent(objs, l)
    ensures l.Some? ==> objs[l.value].chainID in Chain(objs, l)
  {
  }

  /** The dependencies of a tag that were not seen before, and its top image, can be appended. */
  lemma TagJoins(objs: map<Obj, RoLayer>, layerMap: map<string, Obj>, hex: Hex, list: seq<Entry>, seen: set<string>,
                 e: Entry)
    requires Layers(objs, layerMap) && Pushable(objs, layerMap, hex, list, seen)
    requires e.Top? && Stored(objs, layerMap, e.top) && e.parentV1ID == ParentID(objs, hex, e.top)
    ensures Pushable(objs, layerMap, hex, list + (Unseen(objs, hex, Below(objs, e.top), seen) + [e]),
                     seen + Chain(objs, Below(objs, e.top)))
  {
    var p := Below(objs, e.top);
    assert e.top.Some? ==> ParentIn(objs, layerMap, objs[e.top.value].parent);
    UnseenJoins(objs, layerMap, hex, list, seen, p);
    OwnChain(objs, p);
    var deps := Unseen(objs, hex, p, seen);
    TopJoins(objs, layerMap, hex, list + deps, seen + Chain(objs, p), e);
    assert list + (deps + [e]) == list + deps + [e];
  }

  // ----- The recursion and the loop -----

  class Pusher {
    const objs: map<Obj, RoLayer>
    const layerMap: map<string, Obj>
    const hex: Hex
    const tops: map<string, string>     // stored images, with the ChainID of their RootFS
    var seen: map<string, Entry>        // dependenciesSeen

    constructor (objs: map<Obj, RoLayer>, layerMap: map<string, Obj>, hex: Hex, tops: map<string, string>)
      ensures this.objs == objs && this.layerMap == layerMap && this.hex == hex && this.tops == tops && seen == map[]
    {
      this.objs, this.layerMap, this.hex, this.tops, seen := objs, layerMap, hex, tops, map[];
    }

    ghost predicate Valid()
      reads this
    {
      && Layers(objs, layerMap)
      && forall c :: c in seen ==> c in layerMap && seen[c] == DependencyOf(objs, hex, layerMap[c])
    }

    /** `generateDependencyImages`; without sharing there is no map of dependencies seen. */
    method GenerateDependencyImages(l: Option<Obj>, shared: bool) returns (list: seq<Entry>, top: Option<Entry>)
      requires Valid() && Stored(objs, layerMap, l)
      modifies this`seen
      ensures Valid()
      ensures list == Unseen(objs, hex, l, if shared then old(seen).Keys else {})
      ensures seen.Keys == old(seen).Keys + if shared then Chain(objs, l) else {}
      ensures top == if l.None? then None else Some(DependencyOf(objs, hex, l.value))
      decreases if l.Some? then l.value + 1 else 0
    {
      if l.None? {
        return [], None;
      }
      var p, c := objs[l.value].parent, objs[l.value].chainID;
      assert ParentIn(objs, layerMap, p);
      NotInOwnChain(objs, layerMap, p, l.value);
      var parent;
      list, parent := GenerateDependencyImages(p, shared);
      if shared && c in seen {
        return list, Some(seen[c]);
      }
      var d := Dependency(l.value, hex(c), if parent.Some? then Some(parent.value.v1ID) else None);
      list := list + [d];
      if shared {
        seen := seen[c := d];
      }
      return list, Some(d);
    }

    /** `imageListForTag`; the top image comes after its dependencies. */
    method ImageListForTag(image: string, shared: bool, configOk: bool, ghost before: seq<Entry>)
      returns (list: Option<seq<Entry>>)
      requires Valid() && Pushable(objs, layerMap, hex, before, seen.Keys)
      requires (!shared ==> before == [] && seen == map[])
      modifies this`seen
      ensures Valid()
      ensures list.Some? <==> Listable(image) && configOk
      ensures list.Some? ==>
        Pushable(objs, layerMap, hex, before + list.value, old(seen).Keys + Chain(objs, Below(objs, TopLayer(image))))
      ensures list.Some? && shared ==> seen.Keys == old(seen).Keys + Chain(objs, Below(objs, TopLayer(image)))
      ensures list.Some? ==> OneTop(list.value, Top(image, TopLayer(image), hex(image),
                                                    ParentID(objs, hex, TopLayer(image))))
    {
      if image !in tops {
        return None;
      }
      var chain := tops[image];
      if chain != "" && chain !in layerMap {
        return None;
      }
      var l := if chain == "" then None else Some(layerMap[chain]);
      assert l == TopLayer(image) && Stored(objs, layerMap, l);
      assert l.Some? ==> ParentIn(objs, layerMap, objs[l.value].parent);
      ghost var was := seen.Keys;
      assert !shared ==> was == {};
      var p := Below(objs, l);
      var deps, parent := GenerateDependencyImages(p, shared);
      if !configOk {
        return None;
      }
      var t := Top(image, l, hex(image), if parent.Some? then Some(parent.value.v1ID) else None);
      assert deps == Unseen(objs, hex, p, was);
      TagJoins(objs, layerMap, hex, before, was, t);
      UnseenAreDependencies(objs, hex, p, was);
      return Some(deps + [t]);
    }

    /** The image is stored and its layer is there. */
    predicate Listable(image: string) {
      image in tops && (tops[image] == "" || tops[image] in layerMap)
    }

    /** The ChainIDs of the dependencies of a tagged image. */
    ghost function ChainBelow(image: string): set<string>
      requires Layers(objs, layerMap)
    {
      if Listable(image) then Chain(objs, Below(objs, TopLayer(image))) else {}
    }

    ghost function TopLayer(image: string): (l: Option<Obj>)
      requires Keyed(objs, layerMap) && image in tops && (tops[image] == "" || tops[image] in layerMap)
      ensures ValidParent(objs, l)
    {
      if tops[image] == "" then None else Some(layerMap[tops[image]])
    }

    /** The loop of `getImageList` over the tags of a repository, one map of dependencies for all.  It
        succeeds exactly if there is a tag and every tagged image can be listed; then the dependencies are
        exactly the layers below the tagged images, each once and after its parent, and each tagged image
        is there once. */
    method GetImageList(tagged: seq<string>, badConfigs: set<string>) returns (list: Option<seq<Entry>>)
      requires Valid() && seen == map[]
      modifies this`seen
      ensures Valid()
      ensures list.Some?
         <==> tagged != [] && forall i :: 0 <= i < |tagged| ==> Listable(tagged[i]) && tagged[i] !in badConfigs
      ensures list.Some? ==> Pushable(objs, layerMap, hex, list.value, seen.Keys)
      ensures list.Some? ==> forall c :: c in seen <==> exists i :: 0 <= i < |tagged| && c in ChainBelow(tagged[i])
      ensures list.Some? ==> TopsOnce(list.value) && forall x :: HasTop(list.value, x) <==> x in tagged
      ensures list.Some? ==> forall i :: 0 <= i < |list.value| ==> Identified(list.value[i])
    {
      var all: seq<Entry> := [];
      var imagesSeen: set<string> := {};
      for i := 0 to |tagged|
        invariant Valid() && Pushable(objs, layerMap, hex, all, seen.Keys)
        invariant forall x :: x in imagesSeen <==> x in tagged[..i]
        invariant forall j :: 0 <= j < i ==> Listable(tagged[j]) && tagged[j] !in badConfigs
        invariant i == 0 ==> all == []
        invariant TopsOnce(all) && forall x :: HasTop(all, x) <==> x in imagesSeen
        invariant TopsIdentified(all)
        invariant forall c :: c in seen <==> exists x :: x in imagesSeen && c in ChainBelow(x)
      {
        if tagged[i] !in imagesSeen {
          var more := ImageListForTag(tagged[i], true, tagged[i] !in badConfigs, all);
          if more.None? {
            return None;
          }
          TopsMore(all, more.value, more.value[|more.value| - 1]);
          TopsIdentifiedMore(all, more.value, tagged[i]);
          imagesSeen := imagesSeen + {tagged[i]};
          all := all + more.value;
        }
      }
      assert tagged != [] ==> HasTop(all, tagged[0]);
      if all == [] {
        return None;
      }
      SeenBy(imagesSeen, tagged, seen.Keys);
      AllIdentified(all, seen.Keys);
      return Some(all);
    }

    /** The IDs an entry carries: of a dependency, those of the ChainIDs of its layer and of the layer below; of a
        tagged image, that of the image, on its own layer, and that of the ChainID of the layer below. */
    ghost predicate Identified(e: Entry) {
      var l := if e.Dependency? then Some(e.layer) else e.top;
      && ValidParent(objs, l)
      && (e.Dependency? ==> e.v1ID == hex(objs[e.layer].chainID))
      && (e.Top? ==>
            && e.v1ID == hex(e.image) && e.image in tops
            && (if tops[e.image] == "" then e.top == None
                else tops[e.image] in layerMap && e.top == Some(layerMap[tops[e.image]])))
      && (l.Some? && objs[l.value].parent.Some? ==>
            && objs[l.value].parent.value in objs
            && e.parentV1ID == Some(hex(objs[objs[l.value].parent.value].chainID)))
      && (l.None? || objs[l.value].parent.None? ==> e.parentV1ID == None)
    }

    ghost predicate TopsIdentified(list: seq<Entry>) {
      forall i :: 0 <= i < |list| && list[i].Top? ==> Identified(list[i])
    }

    lemma TopsIdentifiedMore(list: seq<Entry>, more: seq<Entry>, image: string)
      requires Layers(objs, layerMap) && TopsIdentified(list) && Listable(image)
      requires OneTop(more, Top(image, TopLayer(image), hex(image), ParentID(objs, hex, TopLayer(image))))
      ensures TopsIdentified(list + more)
    {
      var all := list + more;
      forall i | 0 <= i < |all| && all[i].Top? ensures Identified(all[i]) {
        assert all[i] == if i < |list| then list[i] else more[i - |list|];
      }
    }

    lemma AllIdentified(list: seq<Entry>, keys: set<string>)
      requires Layers(objs, layerMap) && Pushable(objs, layerMap, hex, list, keys) && TopsIdentified(list)
      ensures forall i :: 0 <= i < |list| ==> Identified(list[i])
    {
    }

    lemma SeenBy(images: set<string>, tagged: seq<string>, keys: set<string>)
      requires Layers(objs, layerMap) && forall x :: x in images <==> x in tagged
      requires forall c :: c in keys <==> exists x :: x in images && c in ChainBelow(x)
      ensures forall c :: c in keys <==> exists i :: 0 <= i < |tagged| && c in ChainBelow(tagged[i])
    {
      forall c ensures c in keys <==> exists i :: 0 <= i < |tagged| && c in ChainBelow(tagged[i]) {
        if c in keys {
          var x :| x in images && c in ChainBelow(x);
          var i :| 0 <= i < |tagged| && tagged[i] == x;
        }
        if exists i :: 0 <= i < |tagged| && c in ChainBelow(tagged[i]) {
          var i :| 0 <= i < |tagged| && c in ChainBelow(tagged[i]);
          assert tagged[i] in images;
        }
      }
    }
  }

  /** The list ends with the top image, and there is no other. */
  ghost predicate OneTop(list: seq<Entry>, top: Entry) {
    && list != [] && list[|list| - 1] == top
    && forall i :: 0 <= i < |list| - 1 ==> list[i].Dependency?
  }

  /** No top image comes twice. */
  ghost predicate TopsOnce(list: seq<Entry>) {
    forall i, j :: 0 <= i < j < |list| && list[i].Top? && list[j].Top? ==> list[i].image != list[j].image
  }

  ghost predicate HasTop(list: seq<Entry>, image: string) {
    exists j :: 0 <= j < |list| && list[j].Top? && list[j].image == image
  }

  lemma TopsMore(list: seq<Entry>, more: seq<Entry>, top: Entry)
    requires TopsOnce(list) && top.Top? && OneTop(more, top) && !HasTop(list, top.image)
    ensures TopsOnce(list + more) && forall x :: HasTop(list + more, x) <==> HasTop(list, x) || x == top.image
  {
    var all, image := list + more, top.image;
    forall x ensures HasTop(all, x) <==> HasTop(list, x) || x == image {
      if HasTop(list, x) {
        var j :| 0 <= j < |list| && list[j].Top? && list[j].image == x;
        assert all[j] == list[j];
      }
      assert all[|all| - 1] == more[|more| - 1];
      if HasTop(all, x) {
        var j :| 0 <= j < |all| && all[j].Top? && all[j].image == x;
        assert all[j] == if j < |list| then list[j] else more[j - |list|];
      }
    }
    forall i, j | 0 <= i < j < |all| && all[i].Top? && all[j].Top? ensures all[i].image != all[j].image {
      assert all[j] == if j < |list| then list[j] else more[j - |list|];
      if i < |list| {
        assert all[i] == list[i] && HasTop(list, list[i].image);
      }
    }
  }

  lemma {:induction false} UnseenAreDependencies(objs: map<Obj, RoLayer>, hex: Hex, l: Option<Obj>, seen: set<string>)
    requires Acyclic(objs) && ValidParent(objs, l)
    ensures forall i :: 0 <= i < |Unseen(objs, hex, l, seen)| ==> Unseen(objs, hex, l, seen)[i].Dependency?
    decreases if l.Some? then l.value + 1 else 0
  {
    if l.Some? {
      UnseenAreDependencies(objs, hex, objs[l.value].parent, seen);
    }
  }
}
