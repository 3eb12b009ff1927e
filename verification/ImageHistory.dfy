/**
 `ImageHistory`: the sizes of the layers behind the entries of an image's history, found by looking up
 the ChainID of one prefix of its DiffIDs after the other.
 */
module ImageHistory {
  import opened ChainIds
  import opened LayerState
  import opened LayerSafety
  import opened LayerChains
  import opened ImageState
  import opened ImageWorld
  import opened ImageDeletion
  import opened ImageRuns
  import opened ImageLives
  import LayerStore
  import ImageStore
  import Registry = LayerRegister

  /** A line of the history; the image it stands for is filled in last. */
  datatype Row = Row(id: string, tags: set<Ref>, createdBy: string, size: int)

  const MISSING := "<missing>"

  datatype Result = Rows(rows: seq<Row>) | TooManyLayers | LayerMissing | NoSuchImage

  /** The store after some handles have come and gone. */
  ghost predicate Untouched(s: State, t: State) {
    t == s.(core := s.core.(nextId := t.core.nextId)) && s.core.nextId <= t.core.nextId
  }

  /** Taking a handle on a layer that something refers to, and giving it back, leaves no trace. */
  lemma PeekLeavesNoTrace(s: State, chain: string, io: Faults)
    requires Inv(s) && chain in Retained(s.core)
    ensures var (t, h) := Registry.Get(s, chain);
      h.Some? && h.value.obj in t.core.objs && Wf(t.core) && Untouched(s, Release(t, h.value, io).0)
  {
    assert InMap(s.core.objs, s.core.layerMap, s.core.layerMap[chain]);
    Registry.GetReleaseRestores(s, chain, io);
  }

  lemma UntouchedRetained(s: State, t: State)
    requires Untouched(s, t)
    ensures Retained(t.core) == Retained(s.core)
  {
    assert forall o :: References(t.core, o) == References(s.core, o);
  }

  /** `Get`, `DiffSize` and `ReleaseAndLog` of one layer. */
  method LayerSize(ls: LayerStore.Store, chain: string, io: Faults) returns (size: Option<int>)
    requires ls.Valid()
    modifies ls
    ensures ls.Valid()
    ensures size == if chain in old(ls.core.layerMap) then Some(old(ls.core.objs[ls.core.layerMap[chain]]).size)
                    else None
    ensures old(chain in Retained(ls.core)) || chain !in old(ls.core.layerMap) ==> Untouched(old(ls.View()), ls.View())
  {
    if chain in Retained(ls.core) {
      PeekLeavesNoTrace(ls.View(), chain, io);
    }
    var l := ls.Get(chain);
    if l.None? {
      return None;
    }
    size := Some(ls.core.objs[l.value.obj].size);
    var _ := ls.Release(l.value, io);
  }

  /** The size of the layer made of the first `n` DiffIDs. */
  ghost predicate SizeOf(h: Digest, layerMap: map<string, Obj>, objs: map<Obj, RoLayer>, diffIDs: seq<string>,
                         size: int) {
    var chain := CreateChainID(h, diffIDs);
    chain in layerMap && layerMap[chain] in objs && size == objs[layerMap[chain]].size
  }

  /** The row of entry `i`: the size of the layer the entry made, or none. */
  ghost predicate RowOf(h: Digest, layerMap: map<string, Obj>, objs: map<Obj, RoLayer>, img: Image, i: nat, row: Row)
    requires i < |img.history|
  {
    && row.id == "<missing>" && row.tags == {} && row.createdBy == img.history[i].createdBy
    && if img.history[i].emptyLayer then row.size == 0
       else SizeOf(h, layerMap, objs, img.diffIDs[..Top(img, i)], row.size)
  }

  /** The rows of the first `i` entries, newest first. */
  ghost predicate RowsOf(h: Digest, layerMap: map<string, Obj>, objs: map<Obj, RoLayer>, img: Image, i: nat,
                         rows: seq<Row>)
    requires i <= |img.history|
  {
    |rows| == i && forall j :: 0 <= j < i ==> RowOf(h, layerMap, objs, img, i - 1 - j, rows[j])
  }

  lemma RowsMore(h: Digest, layerMap: map<string, Obj>, objs: map<Obj, RoLayer>, img: Image, i: nat, rows: seq<Row>,
                 row: Row)
    requires i < |img.history| && RowsOf(h, layerMap, objs, img, i, rows) && RowOf(h, layerMap, objs, img, i, row)
    ensures RowsOf(h, layerMap, objs, img, i + 1, [row] + rows)
  {
  }

  /** How many layers there are up to and including entry `i`. */
  ghost function Top(img: Image, i: nat): (n: nat)
    requires i < |img.history|
    ensures n <= |img.diffIDs|
  {
    var n := NonEmptyLayers(img.history[..i + 1]);
    if n <= |img.diffIDs| then n else |img.diffIDs|
  }

  lemma {:induction false} NonEmptyMonotone(history: seq<HistoryEntry>, i: nat)
    requires i <= |history|
    ensures NonEmptyLayers(history[..i]) <= NonEmptyLayers(history)
    decreases |history|
  {
    if i == |history| {
      assert history[..i] == history;
    } else {
      NonEmptyMonotone(history[..|history| - 1], i);
      assert history[..|history| - 1][..i] == history[..i];
    }
  }

  lemma NonEmptyNext(history: seq<HistoryEntry>, i: nat)
    requires i < |history|
    ensures NonEmptyLayers(history[..i + 1]) == NonEmptyLayers(history[..i]) + if history[i].emptyLayer then 0 else 1
  {
    assert history[..i + 1][..i] == history[..i];
  }

  /** A stored image with its configuration and its handle, over a layer store that has, with a prefix of its
      DiffIDs, the one before. */
  ghost predicate Healthy(w: World, parse: Parser, id: ID) {
    var h, im, k := w.layers.digest, w.images, w.layers.core;
    && LexicalDigest(h) && Inv(w.layers) && "" !in k.layerMap
    && id in im.images && ImageLinked(h, parse, im.content, im.images[id], id, k.handles, k.objs)
    && Accepted(parse(im.content[id]).value)
    && StepsDown(h, Retained(k), parse(im.content[id]).value.diffIDs)
  }

  /** In any state of any life, every image that is stored with its configuration is healthy, if no archive is
      the text of a link between its DiffIDs. */
  lemma StoredImagesAreHealthy(h: Digest, parse: Parser, lives: seq<seq<SiteStep>>, w: Site, id: ID, ds: seq<string>)
    requires LexicalDigest(h) && Injective(h) && SiteLives(InitSite(h), parse, lives, w) && NoLinkArchived(h, ds, lives)
    requires id in w.world.images.images && id in w.world.images.content && parse(w.world.images.content[id]).Some?
    requires parse(w.world.images.content[id]).value.diffIDs == ds
    ensures Healthy(w.world, parse, id)
  {
    LivesStepDown(h, parse, lives, w, ds);
    var k := w.world.layers.core;
    assert ImageLinked(h, parse, w.written, w.world.images.images[id], id, k.handles, k.objs);
  }

  /** A history that speaks of layers needs a first DiffID that is not empty. */
  predicate Traceable(img: Image) {
    NonEmptyLayers(img.history) > 0 ==> img.diffIDs != [] && img.diffIDs[0] != ""
  }

  /** The `n`-th prefix of a healthy image is found, and looking at it leaves no trace, if the first DiffID is
      not empty; otherwise the first is not found. */
  lemma PrefixFound(w: World, parse: Parser, id: ID, s: State, n: nat)
    requires Healthy(w, parse, id) && Untouched(w.layers, s)
    requires 1 <= n <= |parse(w.images.content[id]).value.diffIDs|
    ensures var ds := parse(w.images.content[id]).value.diffIDs;
      if ds[0] != "" then CreateChainID(s.digest, ds[..n]) in Retained(s.core)
      else CreateChainID(s.digest, ds[..1]) !in s.core.layerMap
  {
    var ds := parse(w.images.content[id]).value.diffIDs;
    PrefixesRetainedIff(w.layers.digest, parse, w.images.content, w.images.images[id], id, w.layers.core);
    UntouchedRetained(w.layers, s);
    if ds[0] == "" {
      assert ds[..1] == [""];
      ChainOfOne(s.digest, "");
    }
  }

  /** The body of the loop for an entry that made a layer, `diffIDs` being the DiffIDs up to it. */
  method PrefixSize(st: ImageStore.Store, diffIDs: seq<string>, ghost w: World, ghost id: ID, ghost n: nat, io: Faults)
    returns (size: Option<int>)
    requires st.ls.Valid()
    requires Healthy(w, st.parse, id) ==> Untouched(w.layers, st.ls.View()) && IsPrefix(w, st.parse, id, n, diffIDs)
    modifies st.ls
    ensures st.ls.Valid()
    ensures Healthy(w, st.parse, id) ==>
      && Untouched(w.layers, st.ls.View())
      && (size.Some? <==> FirstDiffID(w, st.parse, id) != "")
      && (size.Some? ==> SizeOf(st.ls.digest, w.layers.core.layerMap, w.layers.core.objs, diffIDs, size.value))
  {
    if Healthy(w, st.parse, id) {
      PrefixFound(w, st.parse, id, st.ls.View(), n);
    }
    size := LayerSize(st.ls, CreateChainID(st.ls.digest, diffIDs), io);
  }

  /** The first DiffID of an image, if it has one. */
  ghost function FirstDiffID(w: World, parse: Parser, id: ID): string
    requires id in w.images.content && parse(w.images.content[id]).Some?
  {
    var ds := parse(w.images.content[id]).value.diffIDs;
    if ds == [] then "" else ds[0]
  }

  ghost predicate IsPrefix(w: World, parse: Parser, id: ID, n: nat, diffIDs: seq<string>)
    requires id in w.images.content && parse(w.images.content[id]).Some?
  {
    var all := parse(w.images.content[id]).value.diffIDs;
    1 <= n <= |all| && diffIDs == all[..n] && (n == 1 || all[0] != "")
  }

  lemma PrefixGrows(all: seq<string>, n: nat)
    requires n < |all|
    ensures all[..n] + [all[n]] == all[..n + 1]
  {
  }

  // ----- Which image a row stands for -----

  /** The image that `Get` reads under an ID. */
  predicate Gettable(h: Digest, parse: Parser, content: map<ID, string>, id: ID) {
    ImageStore.Readable(h, parse, content, id)
  }

  /** The image and its ancestors, up to the first that has no parent or whose parent cannot be read, and at
      most `n` of them. */
  function Lineage(h: Digest, parse: Parser, im: Images, id: ID, n: nat): seq<ID>
    decreases n
  {
    if n == 0 then []
    else
      var parent := GetParent(im, id);
      if parent.Some? && parent.value != "" && Gettable(h, parse, im.content, parent.value)
      then [id] + Lineage(h, parse, im, parent.value, n - 1)
      else [id]
  }

  /** The image at `i + 1` is the stored parent of the one at `i`, and can be read. */
  ghost predicate ClimbsAt(h: Digest, parse: Parser, im: Images, up: seq<ID>, i: nat)
    requires i + 1 < |up|
  {
    GetParent(im, up[i]) == Some(up[i + 1]) && up[i + 1] != "" && Gettable(h, parse, im.content, up[i + 1])
  }

  /** The stored parent of the image is missing, or cannot be read. */
  ghost predicate EndsAt(h: Digest, parse: Parser, im: Images, id: ID) {
    var p := GetParent(im, id);
    p.None? || p.value == "" || !Gettable(h, parse, im.content, p.value)
  }

  /** What a lineage is: it starts with the image, goes from image to stored parent, which can be read, and ends where
      there are enough rows or where the parent is missing or cannot be read. */
  lemma {:induction false} LineageClimbs(h: Digest, parse: Parser, im: Images, id: ID, n: nat)
    ensures |Lineage(h, parse, im, id, n)| <= n
    ensures n > 0 ==> Lineage(h, parse, im, id, n) != [] && Lineage(h, parse, im, id, n)[0] == id
    ensures forall i: nat :: i + 1 < |Lineage(h, parse, im, id, n)| ==>
      ClimbsAt(h, parse, im, Lineage(h, parse, im, id, n), i)
    ensures var up := Lineage(h, parse, im, id, n); 0 < |up| < n ==> EndsAt(h, parse, im, up[|up| - 1])
    decreases n
  {
    if n > 0 && GoesOn(h, parse, im, id) {
      var p := GetParent(im, id).value;
      LineageClimbs(h, parse, im, p, n - 1);
      var rest, up := Lineage(h, parse, im, p, n - 1), Lineage(h, parse, im, id, n);
      assert up == [id] + rest;
      forall i: nat | i + 1 < |up| ensures ClimbsAt(h, parse, im, up, i) {
        assert i > 0 ==> ClimbsAt(h, parse, im, rest, i - 1);
      }
      assert rest != [] ==> up[|up| - 1] == rest[|rest| - 1];
    }
  }

  function Tags(refs: map<Ref, ID>, id: ID): set<Ref> {
    set r | r in RefsTo(refs, id) && !r.canonical
  }

  /** The tags of an image are the references to it that do not name a digest. */
  ghost predicate TagsAre(refs: map<Ref, ID>, id: ID, tags: set<Ref>) {
    forall r :: r in tags <==> r in refs && refs[r] == id && !r.canonical
  }

  /** The rows with the images of a lineage filled in from the newest on. */
  ghost predicate Named(rows: seq<Row>, named: seq<Row>, lineage: seq<ID>, refs: map<Ref, ID>) {
    && |named| == |rows|
    && forall i :: 0 <= i < |rows| ==>
         if i < |lineage| then
           && named[i].id == lineage[i] && TagsAre(refs, lineage[i], named[i].tags)
           && named[i].createdBy == rows[i].createdBy && named[i].size == rows[i].size
         else named[i] == rows[i]
  }

  /** The rows with images filled in one by one, up the parents. */
  function Fill(h: Digest, parse: Parser, im: Images, refs: map<Ref, ID>, id: ID, rows: seq<Row>): seq<Row>
    decreases |rows|
  {
    if rows == [] then []
    else
      var parent := GetParent(im, id);
      var first := rows[0].(id := id, tags := Tags(refs, id));
      if parent.Some? && parent.value != "" && Gettable(h, parse, im.content, parent.value)
      then [first] + Fill(h, parse, im, refs, parent.value, rows[1..])
      else [first] + rows[1..]
  }

  lemma NamedCons(row: Row, rest: seq<Row>, named: seq<Row>, id: ID, lineage: seq<ID>, refs: map<Ref, ID>)
    requires Named(rest, named, lineage, refs)
    ensures Named([row] + rest, [row.(id := id, tags := Tags(refs, id))] + named, [id] + lineage, refs)
  {
    var all, first := [row] + rest, [row.(id := id, tags := Tags(refs, id))] + named;
    assert TagsAre(refs, id, Tags(refs, id));
    forall i | 0 < i < |all| ensures first[i] == named[i - 1] && all[i] == rest[i - 1] {}
  }

  /** Whether the lineage goes on above an image. */
  predicate GoesOn(h: Digest, parse: Parser, im: Images, id: ID) {
    var parent := GetParent(im, id);
    parent.Some? && parent.value != "" && Gettable(h, parse, im.content, parent.value)
  }

  lemma FillUnfold(h: Digest, parse: Parser, im: Images, refs: map<Ref, ID>, id: ID, row: Row, rest: seq<Row>)
    ensures Fill(h, parse, im, refs, id, [row] + rest) == [row.(id := id, tags := Tags(refs, id))] +
      if GoesOn(h, parse, im, id) then Fill(h, parse, im, refs, GetParent(im, id).value, rest) else rest
    ensures Lineage(h, parse, im, id, |[row] + rest|) == [id] +
      if GoesOn(h, parse, im, id) then Lineage(h, parse, im, GetParent(im, id).value, |rest|) else []
  {
    assert ([row] + rest)[1..] == rest;
  }

  lemma NamedNothing(rows: seq<Row>, refs: map<Ref, ID>)
    ensures Named(rows, rows, [], refs)
  {
  }

  lemma {:induction false} FillNames(h: Digest, parse: Parser, im: Images, refs: map<Ref, ID>, id: ID, rows: seq<Row>)
    ensures Named(rows, Fill(h, parse, im, refs, id, rows), Lineage(h, parse, im, id, |rows|), refs)
    decreases |rows|, 1
  {
    if rows == [] {
      NamedNothing(rows, refs);
    } else {
      var row, rest := rows[0], rows[1..];
      FillNamesCons(h, parse, im, refs, id, row, rest);
      assert rows == [row] + rest;
    }
  }

  lemma {:induction false} FillNamesCons(h: Digest, parse: Parser, im: Images, refs: map<Ref, ID>, id: ID, row: Row,
                                         rest: seq<Row>)
    ensures Named([row] + rest, Fill(h, parse, im, refs, id, [row] + rest), Lineage(h, parse, im, id, |[row] + rest|),
                  refs)
    decreases |rest| + 1, 0
  {
    FillUnfold(h, parse, im, refs, id, row, rest);
    if GoesOn(h, parse, im, id) {
      var p := GetParent(im, id).value;
      FillNames(h, parse, im, refs, p, rest);
      NamedCons(row, rest, Fill(h, parse, im, refs, p, rest), id, Lineage(h, parse, im, p, |rest|), refs);
    } else {
      NamedNothing(rest, refs);
      NamedCons(row, rest, rest, id, [], refs);
    }
  }

  /** The rows named so far, and what will come after them, make up all. */
  ghost predicate Filling(all: seq<Row>, named: seq<Row>, rest: seq<Row>) {
    all == named + rest
  }

  lemma FillingNext(all: seq<Row>, named: seq<Row>, row: Row, rest: seq<Row>)
    requires Filling(all, named, [row] + rest)
    ensures Filling(all, named + [row], rest)
  {
  }

  lemma FillNext(h: Digest, parse: Parser, im: Images, refs: map<Ref, ID>, id: ID, rows: seq<Row>, i: nat)
    requires i < |rows|
    ensures var parent := GetParent(im, id);
      var first := rows[i].(id := id, tags := Tags(refs, id));
      Fill(h, parse, im, refs, id, rows[i..]) == [first] +
        if parent.Some? && parent.value != "" && Gettable(h, parse, im.content, parent.value)
        then Fill(h, parse, im, refs, parent.value, rows[i + 1..]) else rows[i + 1..]
  {
    assert rows[i..][1..] == rows[i + 1..];
  }

  /** The second loop of `ImageHistory`. */
  method NameRows(h: Digest, parse: Parser, im: Images, refs: map<Ref, ID>, top: ID, rows: seq<Row>)
    returns (named: seq<Row>)
    ensures named == Fill(h, parse, im, refs, top, rows)
  {
    ghost var all := Fill(h, parse, im, refs, top, rows);
    named := [];
    var id := top;
    assert rows[0..] == rows;
    for i := 0 to |rows|
      invariant Filling(all, named, Fill(h, parse, im, refs, id, rows[i..]))
    {
      FillNext(h, parse, im, refs, id, rows, i);
      var row := rows[i].(id := id, tags := Tags(refs, id));
      ghost var rest := Fill(h, parse, im, refs, id, rows[i..])[1..];
      FillingNext(all, named, row, rest);
      named := named + [row];
      var parent := GetParent(im, id);
      if parent.None? || parent.value == "" || !Gettable(h, parse, im.content, parent.value) {
        return named + rows[i + 1..];
      }
      id := parent.value;
    }
    assert named + [] == named;
  }

  /** For a healthy image no count and no layer changes, and there are never too many layers.  The history is
      there exactly if it speaks of no layers or the first DiffID is not empty; then every prefix is found, and
      the rows come newest first and name the image and its ancestors. */
  method ImageHistory(st: ImageStore.Store, refs: map<Ref, ID>, id: ID, io: Faults)
    returns (r: Result, ghost sizes: seq<Row>)
    requires st.ls.Valid()
    modifies st.ls
    ensures r.NoSuchImage? <==> !Gettable(st.ls.digest, st.parse, st.content, id)
    ensures r.NoSuchImage? <==>
      !(id in st.content && st.ls.digest(st.content[id]) == id && st.parse(st.content[id]).Some?)
    ensures r.Rows? ==> Named(sizes, r.rows, Lineage(st.ls.digest, st.parse, st.View(), id, |sizes|), refs)
    ensures old(Healthy(st.Both(), st.parse, id)) && Gettable(st.ls.digest, st.parse, st.content, id) ==>
      && Untouched(old(st.ls.View()), st.ls.View())
      && var img := st.parse(st.content[id]).value;
         && (r.Rows? <==> Traceable(img)) && (!r.Rows? ==> r.LayerMissing?)
         && (r.Rows? ==>
               RowsOf(st.ls.digest, old(st.ls.core.layerMap), old(st.ls.core.objs), img, |img.history|, sizes))
  {
    sizes := [];
    if !Gettable(st.ls.digest, st.parse, st.content, id) {
      return NoSuchImage, [];
    }
    r := ReadHistory(st, st.parse(st.content[id]).value, st.Both(), id, io);
    if r.Rows? {
      sizes := r.rows;
      FillNames(st.ls.digest, st.parse, st.View(), refs, id, r.rows);
      var rows := NameRows(st.ls.digest, st.parse, Images(st.images, st.content, st.parents), refs, id, r.rows);
      r := Rows(rows);
    }
  }

  /** The loop over the entries of the history. */
  method ReadHistory(st: ImageStore.Store, img: Image, ghost w: World, ghost id: ID, io: Faults) returns (r: Result)
    requires st.ls.Valid() && w.layers == st.ls.View()
    requires id in w.images.content && st.parse(w.images.content[id]) == Some(img)
    modifies st.ls
    ensures !r.NoSuchImage?
    ensures Healthy(w, st.parse, id) ==>
      && Untouched(w.layers, st.ls.View())
      && (r.Rows? <==> Traceable(img)) && (!r.Rows? ==> r.LayerMissing?)
      && (r.Rows? ==> RowsOf(st.ls.digest, w.layers.core.layerMap, w.layers.core.objs, img, |img.history|, r.rows))
  {
    ghost var healthy := Healthy(w, st.parse, id);
    ghost var layerMap, objs := w.layers.core.layerMap, w.layers.core.objs;
    var layerCounter, diffIDs, rows := 0, [], [];
    for i := 0 to |img.history|
      invariant st.ls.Valid() && (healthy ==> Untouched(w.layers, st.ls.View()))
      invariant layerCounter == NonEmptyLayers(img.history[..i]) <= |img.diffIDs|
      invariant diffIDs == img.diffIDs[..layerCounter]
      invariant healthy ==> RowsOf(st.ls.digest, layerMap, objs, img, i, rows)
      invariant healthy && layerCounter > 0 ==> img.diffIDs[0] != ""
    {
      NonEmptyNext(img.history, i);
      NonEmptyMonotone(img.history, i + 1);
      var size := 0;
      if !img.history[i].emptyLayer {
        if |img.diffIDs| <= layerCounter {
          return TooManyLayers;
        }
        PrefixGrows(img.diffIDs, layerCounter);
        diffIDs := diffIDs + [img.diffIDs[layerCounter]];
        var found := PrefixSize(st, diffIDs, w, id, layerCounter + 1, io);
        if found.None? {
          return LayerMissing;
        }
        size := found.value;
        layerCounter := layerCounter + 1;
      }
      var row := Row(MISSING, {}, img.history[i].createdBy, size);
      if healthy {
        RowsMore(st.ls.digest, layerMap, objs, img, i, rows, row);
      }
      rows := [row] + rows;
    }
    assert img.history[..|img.history|] == img.history;
    return Rows(rows);
  }
}
